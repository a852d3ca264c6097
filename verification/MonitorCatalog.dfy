/** The catalogue `ResourceMonitor` discovers (classes, types, elements), how the metadata messages determine
    it, and the two-level index over it. */
module MonitorCatalog {
  import opened Bytes
  import opened Pcf
  import opened Text
  import opened PublicationScan
  import opened HandleLedger
  import MetricName

  datatype MonitorElement = MonitorElement(id: int32, datatypeCode: int32, description: Buffer, metricName: Buffer)
  datatype MonitorType = MonitorType(id: int32, name: Buffer, objectTopic: Buffer, elements: seq<MonitorElement>)
  datatype MonitorClass = MonitorClass(id: int32, name: Buffer, topicString: Buffer, types: seq<MonitorType>)

  const MQIAMO_MONITOR_CLASS: int32 := 839
  const MQIAMO_MONITOR_TYPE: int32 := 840
  const MQIAMO_MONITOR_ELEMENT: int32 := 841
  const MQIAMO_MONITOR_DATATYPE: int32 := 842
  const MQCAMO_MONITOR_CLASS: int32 := 2713
  const MQCAMO_MONITOR_TYPE: int32 := 2714
  const MQCAMO_MONITOR_DESC: int32 := 2715

  // ----- what a metadata message says -----

  /** The parameters of a message body: StrucLength bytes in, when that is at least `least` and inside the
      message, else 36 bytes in. */
  function MessageParams(d: Buffer, least: int32): seq<PcfParam>
    requires |d| >= MQCFH_SIZE && least > 0
  {
    var len := I32(d, 4);
    Params(d[if least <= len <= |d| then len else MQCFH_SIZE..])
  }

  /** The value of the last member under `id`, whatever its structure type. */
  function LastInt(ms: seq<PcfParam>, id: int32): int32 {
    if ms == [] then 0
    else if ms[|ms| - 1].id == id then ms[|ms| - 1].intValue
    else LastInt(ms[..|ms| - 1], id)
  }

  function LastText(ms: seq<PcfParam>, id: int32): Buffer {
    if ms == [] then []
    else if ms[|ms| - 1].id == id then ms[|ms| - 1].text
    else LastText(ms[..|ms| - 1], id)
  }

  function ElementOf(p: PcfParam): MonitorElement {
    var description := LastText(p.members, MQCAMO_MONITOR_DESC);
    MonitorElement(LastInt(p.members, MQIAMO_MONITOR_ELEMENT), LastInt(p.members, MQIAMO_MONITOR_DATATYPE),
                   description, MetricName.NameOf(description))
  }

  /** Every group with a non-zero element id, in order. */
  function ElementsOf(ps: seq<PcfParam>): seq<MonitorElement> {
    if ps == [] then []
    else
      var p := ps[|ps| - 1];
      ElementsOf(ps[..|ps| - 1]) +
      if p.kind == MQCFT_GROUP && ElementOf(p).id != 0 then [ElementOf(p)] else []
  }

  /** The last top-level topic string. */
  function ObjectTopicOf(ps: seq<PcfParam>): Buffer {
    if ps == [] then []
    else
      var p := ps[|ps| - 1];
      if p.kind == MQCFT_STRING && p.id == MQCA_TOPIC_STRING then p.text else ObjectTopicOf(ps[..|ps| - 1])
  }

  predicate Usable(a: Fetched) {
    a.Message? && |a.data| >= MQCFH_SIZE
  }

  /** A type as its group announces it, filled from the answer on its elements topic. */
  function TypeOf(p: PcfParam, elements: Fetched): MonitorType {
    var id, name := LastInt(p.members, MQIAMO_MONITOR_TYPE), LastText(p.members, MQCAMO_MONITOR_TYPE);
    if !Usable(elements) then MonitorType(id, name, [], [])
    else
      var ps := MessageParams(elements.data, 1);
      MonitorType(id, name, ObjectTopicOf(ps), ElementsOf(ps))
  }

  /** The group names a type and a topic to ask for its elements. */
  predicate AnnouncesType(p: PcfParam) {
    && p.kind == MQCFT_GROUP
    && LastText(p.members, MQCAMO_MONITOR_TYPE) != []
    && LastText(p.members, MQCA_TOPIC_STRING) != []
  }

  /** The announced types that have elements; `answers[i]` is the answer for group i. */
  function TypesOf(ps: seq<PcfParam>, answers: seq<Fetched>): seq<MonitorType>
    requires |ps| == |answers|
  {
    if ps == [] then []
    else
      var n := |ps| - 1;
      TypesOf(ps[..n], answers[..n]) +
      if AnnouncesType(ps[n]) && TypeOf(ps[n], answers[n]).elements != [] then [TypeOf(ps[n], answers[n])] else []
  }

  /** What was fetched for one class: its types message, then one answer per parameter of that message. */
  datatype ClassAnswers = ClassAnswers(types: Fetched, elements: seq<Fetched>)

  predicate Complete(a: ClassAnswers) {
    Usable(a.types) ==> |a.elements| == |MessageParams(a.types.data, 1)|
  }

  function ClassOf(p: PcfParam): MonitorClass {
    MonitorClass(LastInt(p.members, MQIAMO_MONITOR_CLASS), LastText(p.members, MQCAMO_MONITOR_CLASS),
                 LastText(p.members, MQCA_TOPIC_STRING), [])
  }

  function ClassTypes(cls: MonitorClass, a: ClassAnswers): seq<MonitorType>
    requires Complete(a)
  {
    if cls.topicString == [] || !Usable(a.types) then [] else TypesOf(MessageParams(a.types.data, 1), a.elements)
  }

  /** The named classes that have types. */
  function ClassesOf(ps: seq<PcfParam>, answers: seq<ClassAnswers>): seq<MonitorClass>
    requires |ps| == |answers| && forall a :: a in answers ==> Complete(a)
  {
    if ps == [] then []
    else
      var n := |ps| - 1;
      var cls := ClassOf(ps[n]);
      assert forall a :: a in answers[..n] ==> a in answers;
      ClassesOf(ps[..n], answers[..n]) +
      if AnnouncesClass(ps[n]) && ClassTypes(cls, answers[n]) != []
      then [cls.(types := ClassTypes(cls, answers[n]))] else []
  }

  // ----- the conversation behind a discovery: which topics are asked, in which order -----

  function TypeTalk(ps: seq<PcfParam>, answers: seq<Fetched>): seq<Call>
    requires |ps| == |answers|
  {
    if ps == [] then []
    else
      var n := |ps| - 1;
      TypeTalk(ps[..n], answers[..n]) +
      if AnnouncesType(ps[n]) then [Asked(LastText(ps[n].members, MQCA_TOPIC_STRING), answers[n])] else []
  }

  /** A class with a topic is asked for its types, then each announced type for its elements. */
  function ClassTalk(cls: MonitorClass, a: ClassAnswers): seq<Call>
    requires Complete(a)
  {
    if cls.topicString == [] then []
    else
      [Asked(cls.topicString, a.types)] +
      if Usable(a.types) then TypeTalk(MessageParams(a.types.data, 1), a.elements) else []
  }

  predicate AnnouncesClass(p: PcfParam) {
    p.kind == MQCFT_GROUP && ClassOf(p).name != []
  }

  function ClassesTalk(ps: seq<PcfParam>, answers: seq<ClassAnswers>): seq<Call>
    requires |ps| == |answers| && forall a :: a in answers ==> Complete(a)
  {
    if ps == [] then []
    else
      var n := |ps| - 1;
      assert forall a :: a in answers[..n] ==> a in answers;
      ClassesTalk(ps[..n], answers[..n]) + if AnnouncesClass(ps[n]) then ClassTalk(ClassOf(ps[n]), answers[n]) else []
  }

  /** Everything one discovery was told: the classes message, then one set of answers per parameter of it. */
  datatype Answers = Answers(classes: Fetched, byClass: seq<ClassAnswers>)

  predicate Consistent(a: Answers) {
    && (Usable(a.classes) ==> |a.byClass| == |MessageParams(a.classes.data, MQCFH_SIZE)|)
    && forall c :: c in a.byClass ==> Complete(c)
  }

  function ClassesTopic(qmgrName: Buffer): Buffer {
    Ascii("$SYS/MQ/INFO/QMGR/") + qmgrName + Ascii("/Monitor/METADATA/CLASSES")
  }

  function Talk(qmgrName: Buffer, a: Answers): seq<Call>
    requires Consistent(a)
  {
    [Asked(ClassesTopic(qmgrName), a.classes)] +
    if Usable(a.classes) then ClassesTalk(MessageParams(a.classes.data, MQCFH_SIZE), a.byClass) else []
  }

  function Discovered(a: Answers): seq<MonitorClass>
    requires Consistent(a)
  {
    if Usable(a.classes) then ClassesOf(MessageParams(a.classes.data, MQCFH_SIZE), a.byClass) else []
  }

  // ----- every discovered class has a type, every type an element -----

  predicate GoodElement(e: MonitorElement) {
    e.id != 0 && e.metricName == MetricName.NameOf(e.description)
  }

  predicate GoodType(t: MonitorType) {
    t.name != [] && t.elements != [] && forall e :: e in t.elements ==> GoodElement(e)
  }

  predicate GoodClass(c: MonitorClass) {
    c.name != [] && c.types != [] && forall t :: t in c.types ==> GoodType(t)
  }

  lemma {:induction false} ElementsAreGood(ps: seq<PcfParam>)
    ensures forall e :: e in ElementsOf(ps) ==> GoodElement(e)
    decreases |ps|
  {
    if ps != [] {
      ElementsAreGood(ps[..|ps| - 1]);
    }
  }

  lemma {:induction false} TypesAreGood(ps: seq<PcfParam>, answers: seq<Fetched>)
    requires |ps| == |answers|
    ensures forall t :: t in TypesOf(ps, answers) ==> GoodType(t)
    decreases |ps|
  {
    hide GoodElement, ElementsOf, ObjectTopicOf, LastInt, LastText, I32;
    if ps != [] {
      var n := |ps| - 1;
      TypesAreGood(ps[..n], answers[..n]);
      if Usable(answers[n]) {
        ElementsAreGood(MessageParams(answers[n].data, 1));
      }
    }
  }

  lemma {:induction false} ClassesAreGood(ps: seq<PcfParam>, answers: seq<ClassAnswers>)
    requires |ps| == |answers| && forall a :: a in answers ==> Complete(a)
    ensures forall c :: c in ClassesOf(ps, answers) ==> GoodClass(c)
    decreases |ps|
  {
    hide GoodType, TypesOf, LastInt, LastText, I32;
    if ps != [] {
      var n := |ps| - 1;
      assert forall a :: a in answers[..n] ==> a in answers;
      ClassesAreGood(ps[..n], answers[..n]);
      var a := answers[n];
      assert Complete(a);
      if Usable(a.types) {
        TypesAreGood(MessageParams(a.types.data, 1), a.elements);
      }
    }
  }

  /** Whatever the answers: every discovered class has a type, and every type an element. */
  lemma DiscoveredIsGood(a: Answers)
    requires Consistent(a)
    ensures forall c :: c in Discovered(a) ==> GoodClass(c)
  {
    hide GoodClass;
    if Usable(a.classes) {
      ClassesAreGood(MessageParams(a.classes.data, MQCFH_SIZE), a.byClass);
    }
  }

  // ----- the index -----

  /** A pointer into `classes_`: class, type and element positions. Appending classes moves none of them. */
  datatype ElementRef = ElementRef(c: nat, t: nat, e: nat)

  datatype Entry = Entry(key: Buffer, id: int, at: ElementRef)

  function Key(className: Buffer, typeName: Buffer): Buffer {
    className + Ascii("/") + typeName
  }

  function TypeEntries(key: Buffer, c: nat, t: nat, elements: seq<MonitorElement>): seq<Entry> {
    if elements == [] then []
    else
      var n := |elements| - 1;
      TypeEntries(key, c, t, elements[..n]) + [Entry(key, elements[n].id, ElementRef(c, t, n))]
  }

  function ClassEntries(className: Buffer, c: nat, types: seq<MonitorType>): seq<Entry> {
    if types == [] then []
    else
      var n := |types| - 1;
      ClassEntries(className, c, types[..n]) + TypeEntries(Key(className, types[n].name), c, n, types[n].elements)
  }

  /** Every element of the catalogue with its key, in the order the classes list them. */
  function Entries(classes: seq<MonitorClass>): seq<Entry> {
    if classes == [] then []
    else
      var n := |classes| - 1;
      Entries(classes[..n]) + ClassEntries(classes[n].name, n, classes[n].types)
  }

  datatype Option<+T> = None | Some(value: T)

  /** A plain search: the last entry with this key and id. */
  function LastMatch(es: seq<Entry>, key: Buffer, id: int): Option<ElementRef> {
    if es == [] then None
    else if es[|es| - 1].key == key && es[|es| - 1].id == id then Some(es[|es| - 1].at)
    else LastMatch(es[..|es| - 1], key, id)
  }

  type Index = map<Buffer, map<int, ElementRef>>

  function Lookup(index: Index, key: Buffer, id: int): Option<ElementRef> {
    if key in index && id in index[key] then Some(index[key][id]) else None
  }

  ghost predicate Agrees(index: Index, es: seq<Entry>) {
    forall key: Buffer, id: int :: Lookup(index, key, id) == LastMatch(es, key, id)
  }

  /** `emap[e.element_id] = &e` for one more entry. */
  lemma AgreesAppend(index: Index, es: seq<Entry>, entry: Entry)
    requires Agrees(index, es) && entry.key in index
    ensures Agrees(index[entry.key := index[entry.key][entry.id := entry.at]], es + [entry])
  {
    var index' := index[entry.key := index[entry.key][entry.id := entry.at]];
    forall key: Buffer, id: int
      ensures Lookup(index', key, id) == LastMatch(es + [entry], key, id)
    {
      assert (es + [entry])[..|es|] == es;
      assert Lookup(index, key, id) == LastMatch(es, key, id);
    }
  }

  /** `type_elements_[key]` creates an empty inner map, which changes no lookup. */
  lemma AgreesTouch(index: Index, es: seq<Entry>, key: Buffer)
    requires Agrees(index, es)
    ensures Agrees(if key in index then index else index[key := map[]], es)
  {
    var index' := if key in index then index else index[key := map[]];
    forall k: Buffer, id: int32
      ensures Lookup(index', k, id) == LastMatch(es, k, id)
    {
      assert Lookup(index, k, id) == LastMatch(es, k, id);
    }
  }

  lemma {:induction false} LastMatchConcat(a: seq<Entry>, b: seq<Entry>, key: Buffer, id: int)
    ensures LastMatch(a + b, key, id) == if LastMatch(b, key, id).Some? then LastMatch(b, key, id) else LastMatch(a, key, id)
    decreases |b|
  {
    if b == [] {
      assert a + b == a;
    } else {
      var n := |b| - 1;
      assert (a + b)[..|a + b| - 1] == a + b[..n];
      LastMatchConcat(a, b[..n], key, id);
    }
  }

  lemma {:induction false} EntriesConcat(a: seq<MonitorClass>, b: seq<MonitorClass>)
    ensures Entries(a) <= Entries(a + b)
    decreases |b|
  {
    if b == [] {
      assert a + b == a;
    } else {
      var n := |b| - 1;
      assert (a + b)[..|a + b| - 1] == a + b[..n];
      EntriesConcat(a, b[..n]);
    }
  }

  /** Indexing the whole catalogue again on top of the entries of its earlier part changes nothing. */
  lemma ReindexAgrees(index: Index, earlier: seq<MonitorClass>, added: seq<MonitorClass>)
    requires Agrees(index, Entries(earlier) + Entries(earlier + added))
    ensures Agrees(index, Entries(earlier + added))
  {
    hide Entries, LastMatch, Lookup;
    var before, all := Entries(earlier), Entries(earlier + added);
    EntriesConcat(earlier, added);
    forall key: Buffer, id: int
      ensures Lookup(index, key, id) == LastMatch(all, key, id)
    {
      assert Lookup(index, key, id) == LastMatch(before + all, key, id);
      LastMatchConcat(before, all, key, id);
      var rest := all[|before|..];
      assert all == before + rest;
      LastMatchConcat(before, rest, key, id);
    }
  }

  // ----- what a found pointer points to -----

  predicate InCatalog(classes: seq<MonitorClass>, r: ElementRef) {
    r.c < |classes| && r.t < |classes[r.c].types| && r.e < |classes[r.c].types[r.t].elements|
  }

  function At(classes: seq<MonitorClass>, r: ElementRef): MonitorElement
    requires InCatalog(classes, r)
  {
    classes[r.c].types[r.t].elements[r.e]
  }

  /** The entry describes the element it points to. */
  predicate Describes(classes: seq<MonitorClass>, entry: Entry) {
    && InCatalog(classes, entry.at)
    && At(classes, entry.at).id == entry.id
    && entry.key == Key(classes[entry.at.c].name, classes[entry.at.c].types[entry.at.t].name)
  }

  lemma {:induction false} TypeEntriesDescribe(classes: seq<MonitorClass>, c: nat, t: nat, n: nat)
    requires c < |classes| && t < |classes[c].types| && n <= |classes[c].types[t].elements|
    ensures var ty := classes[c].types[t];
            forall x :: x in TypeEntries(Key(classes[c].name, ty.name), c, t, ty.elements[..n]) ==> Describes(classes, x)
    decreases n
  {
    hide Key;
    var ty := classes[c].types[t];
    if n > 0 {
      TypeEntriesDescribe(classes, c, t, n - 1);
      assert ty.elements[..n][..n - 1] == ty.elements[..n - 1];
    }
  }

  lemma {:induction false} ClassEntriesDescribe(classes: seq<MonitorClass>, c: nat, n: nat)
    requires c < |classes| && n <= |classes[c].types|
    ensures forall x :: x in ClassEntries(classes[c].name, c, classes[c].types[..n]) ==> Describes(classes, x)
    decreases n
  {
    hide Key, Describes, TypeEntries;
    if n > 0 {
      var types := classes[c].types;
      ClassEntriesDescribe(classes, c, n - 1);
      assert types[..n][..n - 1] == types[..n - 1];
      TypeEntriesDescribe(classes, c, n - 1, |types[n - 1].elements|);
      assert types[n - 1].elements[..|types[n - 1].elements|] == types[n - 1].elements;
    }
  }

  lemma {:induction false} EntriesDescribe(classes: seq<MonitorClass>, n: nat)
    requires n <= |classes|
    ensures forall x :: x in Entries(classes[..n]) ==> Describes(classes, x)
    decreases n
  {
    hide Describes, ClassEntries;
    if n > 0 {
      EntriesDescribe(classes, n - 1);
      assert classes[..n][..n - 1] == classes[..n - 1];
      var types := classes[n - 1].types;
      ClassEntriesDescribe(classes, n - 1, |types|);
      assert types[..|types|] == types;
    }
  }

  lemma {:induction false} LastMatchIsEntry(es: seq<Entry>, key: Buffer, id: int)
    ensures LastMatch(es, key, id).Some? <==> exists x :: x in es && x.key == key && x.id == id
    ensures LastMatch(es, key, id).Some? ==> Entry(key, id, LastMatch(es, key, id).value) in es
    decreases |es|
  {
    if es != [] {
      var init, last := es[..|es| - 1], es[|es| - 1];
      LastMatchIsEntry(init, key, id);
      assert es == init + [last];
    }
  }

  /** A plain search of the catalogue for an element id under a class/type key. */
  function Search(classes: seq<MonitorClass>, key: Buffer, id: int): Option<ElementRef> {
    LastMatch(Entries(classes), key, id)
  }

  /** Whatever is found lies in the catalogue, under that key and with that id. */
  lemma SearchFinds(classes: seq<MonitorClass>, key: Buffer, id: int)
    ensures Search(classes, key, id).Some? ==> Describes(classes, Entry(key, id, Search(classes, key, id).value))
  {
    LastMatchIsEntry(Entries(classes), key, id);
    EntriesDescribe(classes, |classes|);
    assert classes[..|classes|] == classes;
  }

  // ----- and everything that is there is found -----

  /** Element `r` has this id, and its class and type joined by a slash are this key. */
  ghost predicate Matches(classes: seq<MonitorClass>, key: Buffer, id: int, r: ElementRef) {
    InCatalog(classes, r) && At(classes, r).id == id &&
    classes[r.c].name + [47] + classes[r.c].types[r.t].name == key
  }

  /** The order in which classes list types, and types elements. */
  predicate Before(r: ElementRef, s: ElementRef) {
    r.c < s.c || (r.c == s.c && (r.t < s.t || (r.t == s.t && r.e < s.e)))
  }

  /** `r` is the last element in that order to match. */
  ghost predicate LatestMatch(classes: seq<MonitorClass>, key: Buffer, id: int, r: ElementRef) {
    Matches(classes, key, id, r) && forall s :: Matches(classes, key, id, s) ==> s == r || Before(s, r)
  }

  lemma KeyIs(className: Buffer, typeName: Buffer)
    ensures Key(className, typeName) == className + [47] + typeName
  {
    assert Ascii("/") == [47];
  }

  lemma {:induction false} TypeFindsLast(key: Buffer, c: nat, t: nat, es: seq<MonitorElement>, k: Buffer, id: int, e: nat)
    requires e < |es| && key == k && es[e].id == id
    ensures var m := LastMatch(TypeEntries(key, c, t, es), k, id);
            m.Some? && m.value.c == c && m.value.t == t && e <= m.value.e
    decreases |es|
  {
    var n := |es| - 1;
    if e < n {
      TypeFindsLast(key, c, t, es[..n], k, id, e);
    }
  }

  lemma {:induction false} TypeFindsHere(key: Buffer, c: nat, t: nat, es: seq<MonitorElement>, k: Buffer, id: int)
    ensures var m := LastMatch(TypeEntries(key, c, t, es), k, id); m.Some? ==> m.value.c == c && m.value.t == t
    decreases |es|
  {
    if es != [] {
      TypeFindsHere(key, c, t, es[..|es| - 1], k, id);
    }
  }

  lemma {:induction false} ClassFindsLast(className: Buffer, c: nat, types: seq<MonitorType>, k: Buffer, id: int, t: nat, e: nat)
    requires t < |types| && e < |types[t].elements|
    requires Key(className, types[t].name) == k && types[t].elements[e].id == id
    ensures var m := LastMatch(ClassEntries(className, c, types), k, id);
            m.Some? && m.value.c == c && (t < m.value.t || (t == m.value.t && e <= m.value.e))
    decreases |types|
  {
    hide Key, TypeEntries, LastMatch;
    var n := |types| - 1;
    var last := TypeEntries(Key(className, types[n].name), c, n, types[n].elements);
    LastMatchConcat(ClassEntries(className, c, types[..n]), last, k, id);
    TypeFindsHere(Key(className, types[n].name), c, n, types[n].elements, k, id);
    if t < n {
      ClassFindsLast(className, c, types[..n], k, id, t, e);
    } else {
      TypeFindsLast(Key(className, types[n].name), c, n, types[n].elements, k, id, e);
    }
  }

  lemma {:induction false} ClassFindsHere(className: Buffer, c: nat, types: seq<MonitorType>, k: Buffer, id: int)
    ensures var m := LastMatch(ClassEntries(className, c, types), k, id); m.Some? ==> m.value.c == c
    decreases |types|
  {
    hide Key, TypeEntries, LastMatch;
    if types != [] {
      var n := |types| - 1;
      var last := TypeEntries(Key(className, types[n].name), c, n, types[n].elements);
      LastMatchConcat(ClassEntries(className, c, types[..n]), last, k, id);
      TypeFindsHere(Key(className, types[n].name), c, n, types[n].elements, k, id);
      ClassFindsHere(className, c, types[..n], k, id);
    } else {
      NothingFound(k, id);
    }
  }

  lemma NothingFound(k: Buffer, id: int)
    ensures LastMatch([], k, id) == None
  {
  }

  /** Where an element matches, the search finds it or a later one. */
  lemma {:induction false} FindsLast(classes: seq<MonitorClass>, k: Buffer, id: int, r: ElementRef)
    requires InCatalog(classes, r) && At(classes, r).id == id
    requires Key(classes[r.c].name, classes[r.c].types[r.t].name) == k
    ensures var m := LastMatch(Entries(classes), k, id); m.Some? && (m.value == r || Before(r, m.value))
    decreases |classes|
  {
    hide Key, ClassEntries, LastMatch;
    var n := |classes| - 1;
    LastMatchConcat(Entries(classes[..n]), ClassEntries(classes[n].name, n, classes[n].types), k, id);
    ClassFindsHere(classes[n].name, n, classes[n].types, k, id);
    if r.c < n {
      FindsLast(classes[..n], k, id, r);
    } else {
      ClassFindsLast(classes[n].name, n, classes[n].types, k, id, r.t, r.e);
    }
  }

  /** The search finds an element exactly when it is the last in the catalogue to have this key and this id;
      it finds nothing exactly when none has. */
  lemma SearchExactly(classes: seq<MonitorClass>, key: Buffer, id: int, r: ElementRef)
    ensures Search(classes, key, id) == Some(r) <==> LatestMatch(classes, key, id, r)
    ensures Search(classes, key, id) == None <==> forall s :: !Matches(classes, key, id, s)
  {
    hide Key, Entries, LastMatch;
    SearchFinds(classes, key, id);
    var found := Search(classes, key, id);
    if found.Some? {
      MatchesByKey(classes, key, id, found.value);
    }
    forall s | Matches(classes, key, id, s)
      ensures found.Some? && (found.value == s || Before(s, found.value))
    {
      MatchesByKey(classes, key, id, s);
      FindsLast(classes, key, id, s);
    }
  }

  lemma MatchesByKey(classes: seq<MonitorClass>, key: Buffer, id: int, r: ElementRef)
    ensures Matches(classes, key, id, r) <==> Describes(classes, Entry(key, id, r))
  {
    hide Key;
    if InCatalog(classes, r) {
      KeyIs(classes[r.c].name, classes[r.c].types[r.t].name);
    }
  }
}
