/** Structure types and header layout of IBM's programmable command formats (MQCFH, MQCFIN, MQCFIN64,
    MQCFST, MQCFIL, MQCFIL64, MQCFSL, MQCFGR). */
module Pcf {
  import opened Bytes

  const MQCFT_COMMAND: int32 := 1
  const MQCFT_INTEGER: int32 := 3
  const MQCFT_STRING: int32 := 4
  const MQCFT_INTEGER_LIST: int32 := 5
  const MQCFT_STRING_LIST: int32 := 6
  const MQCFT_GROUP: int32 := 20
  const MQCFT_INTEGER64: int32 := 23
  const MQCFT_INTEGER64_LIST: int32 := 25

  const MQCFH_SIZE: nat := 36
  const MQCA_Q_NAME: int32 := 2016
  const MQCA_TOPIC_STRING: int32 := 2094
}
