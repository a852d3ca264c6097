/** A catalogue laid out as metadata publications is the catalogue discovery makes of them. */
module MetadataRoundTrip {
  import opened Bytes
  import opened Pcf
  import opened Text
  import opened PcfTree
  import opened PublicationScan
  import opened StreamRoundTrip
  import opened HandleLedger
  import opened MonitorCatalog
  import opened MessageLayout
  import MetricName

  // ----- the layout -----

  /** How the publications are dressed: their header, the group id and StrucLength convention, further members
      in front, the character set, and the blanks that fill up a name. */
  datatype Style = Style(header: Buffer, group: int32, covering: bool, extra: seq<Wire>, ccsid: int32, pad: nat)

  /** A type with the topic that publishes its elements. */
  datatype TypeEntry = TypeEntry(t: MonitorType, topic: Buffer)

  datatype ClassEntry = ClassEntry(id: int32, name: Buffer, topic: Buffer, types: seq<TypeEntry>)

  function GroupOf(s: Style, a: Wire, b: Wire, c: Wire): Item {
    Grouped(s.group, s.covering, s.extra + [a, b, c])
  }

  function StringOf(s: Style, id: int32, text: Buffer): Wire {
    WireString(id, s.ccsid, Padded(text, s.pad))
  }

  function ElementItem(s: Style, e: MonitorElement): Item {
    GroupOf(s, WireInt(841, e.id), WireInt(842, e.datatypeCode), StringOf(s, 2715, e.description))
  }

  function TypeItem(s: Style, e: TypeEntry): Item {
    GroupOf(s, WireInt(840, e.t.id), StringOf(s, 2714, e.t.name), StringOf(s, 2094, e.topic))
  }

  function ClassItem(s: Style, c: ClassEntry): Item {
    GroupOf(s, WireInt(839, c.id), StringOf(s, 2713, c.name), StringOf(s, 2094, c.topic))
  }

  /** The object topic, then one group per element. */
  function ElementsLayout(s: Style, t: MonitorType): Layout {
    Layout(s.header, [Plain(StringOf(s, 2094, t.objectTopic))] +
                     seq(|t.elements|, i requires 0 <= i < |t.elements| => ElementItem(s, t.elements[i])))
  }

  function TypesLayout(s: Style, types: seq<TypeEntry>): Layout {
    Layout(s.header, seq(|types|, i requires 0 <= i < |types| => TypeItem(s, types[i])))
  }

  function ClassesLayout(s: Style, classes: seq<ClassEntry>): Layout {
    Layout(s.header, seq(|classes|, i requires 0 <= i < |classes| => ClassItem(s, classes[i])))
  }

  /** Everything fits its length fields. */
  predicate Fits(s: Style, classes: seq<ClassEntry>) {
    FitsMessage(ClassesLayout(s, classes)) && forall c :: c in classes ==> ClassFits(s, c)
  }

  predicate ClassFits(s: Style, c: ClassEntry) {
    FitsMessage(TypesLayout(s, c.types)) && forall e :: e in c.types ==> FitsMessage(ElementsLayout(s, e.t))
  }

  /** Texts end in something other than a blank, ids are not 0, and nothing is empty that a catalogue does not
      keep empty. */
  predicate Named(s: Buffer) {
    s != [] && NoBlankEnd(s)
  }

  predicate ProperElement(e: MonitorElement) {
    e.id != 0 && NoBlankEnd(e.description) && e.metricName == MetricName.NameOf(e.description)
  }

  predicate ProperType(e: TypeEntry) {
    Named(e.t.name) && Named(e.topic) && NoBlankEnd(e.t.objectTopic) && e.t.elements != [] &&
    forall x :: x in e.t.elements ==> ProperElement(x)
  }

  predicate ProperClass(c: ClassEntry) {
    Named(c.name) && Named(c.topic) && c.types != [] && forall e :: e in c.types ==> ProperType(e)
  }

  function Elements(s: Style, t: MonitorType): Fetched {
    Message(Written(ElementsLayout(s, t)))
  }

  function ElementAnswers(s: Style, types: seq<TypeEntry>): seq<Fetched> {
    seq(|types|, i requires 0 <= i < |types| => Elements(s, types[i].t))
  }

  function AnswersOf(s: Style, c: ClassEntry): ClassAnswers {
    ClassAnswers(Message(Written(TypesLayout(s, c.types))), ElementAnswers(s, c.types))
  }

  function AllAnswers(s: Style, classes: seq<ClassEntry>): seq<ClassAnswers> {
    seq(|classes|, i requires 0 <= i < |classes| => AnswersOf(s, classes[i]))
  }

  function Published(s: Style, classes: seq<ClassEntry>): Answers {
    Answers(Message(Written(ClassesLayout(s, classes))), AllAnswers(s, classes))
  }

  /** The catalogue the layout was made from. */
  function TypesIn(types: seq<TypeEntry>): seq<MonitorType> {
    seq(|types|, i requires 0 <= i < |types| => types[i].t)
  }

  function Catalogue(classes: seq<ClassEntry>): seq<MonitorClass> {
    seq(|classes|, i requires 0 <= i < |classes| =>
      MonitorClass(classes[i].id, classes[i].name, classes[i].topic, TypesIn(classes[i].types)))
  }

  /** Its questions: the classes, then per class its types and after them the elements of each type. */
  function TypeQuestions(s: Style, types: seq<TypeEntry>): seq<Call> {
    seq(|types|, i requires 0 <= i < |types| => Asked(types[i].topic, Elements(s, types[i].t)))
  }

  function ClassQuestions(s: Style, classes: seq<ClassEntry>): seq<Call> {
    if classes == [] then []
    else
      var c := classes[|classes| - 1];
      ClassQuestions(s, classes[..|classes| - 1]) +
      ([Asked(c.topic, Message(Written(TypesLayout(s, c.types))))] + TypeQuestions(s, c.types))
  }

  // ----- one group -----

  lemma GroupParam(s: Style, a: Wire, b: Wire, c: Wire, id: int32)
    ensures var p := ParamOf(GroupOf(s, a, b, c));
            && p.kind == MQCFT_GROUP
            && LastInt(p.members, id) == (if LeafOf(c).id == id then LeafOf(c).intValue
                                          else if LeafOf(b).id == id then LeafOf(b).intValue
                                          else if LeafOf(a).id == id then LeafOf(a).intValue
                                          else LastInt(LeavesOf(s.extra), id))
            && LastText(p.members, id) == (if LeafOf(c).id == id then LeafOf(c).text
                                           else if LeafOf(b).id == id then LeafOf(b).text
                                           else if LeafOf(a).id == id then LeafOf(a).text
                                           else LastText(LeavesOf(s.extra), id))
  {
    hide LeafOf, LeavesOf, LastInt, LastText;
    LeavesOfThree(s.extra, a, b, c);
    LastOfThree(LeavesOf(s.extra), LeafOf(a), LeafOf(b), LeafOf(c), id);
  }

  lemma ElementReads(s: Style, e: MonitorElement)
    requires ProperElement(e)
    ensures ParamOf(ElementItem(s, e)).kind == MQCFT_GROUP && ElementOf(ParamOf(ElementItem(s, e))) == e
  {
    hide ParamOf, LeafOf, LastInt, LastText, GroupOf;
    var a, b, c := WireInt(841, e.id), WireInt(842, e.datatypeCode), StringOf(s, 2715, e.description);
    LeafValues(841, e.id, s.ccsid, e.description, s.pad);
    LeafValues(842, e.datatypeCode, s.ccsid, e.description, s.pad);
    LeafValues(2715, 0, s.ccsid, e.description, s.pad);
    GroupParam(s, a, b, c, 841);
    GroupParam(s, a, b, c, 842);
    GroupParam(s, a, b, c, 2715);
  }

  lemma TypeReads(s: Style, e: TypeEntry)
    requires ProperType(e)
    ensures var p := ParamOf(TypeItem(s, e));
            && AnnouncesType(p) && LastInt(p.members, 840) == e.t.id
            && LastText(p.members, 2714) == e.t.name && LastText(p.members, 2094) == e.topic
  {
    hide ParamOf, LeafOf, LastInt, LastText, GroupOf;
    var a, b, c := WireInt(840, e.t.id), StringOf(s, 2714, e.t.name), StringOf(s, 2094, e.topic);
    LeafValues(840, e.t.id, s.ccsid, e.topic, s.pad);
    LeafValues(2714, 0, s.ccsid, e.t.name, s.pad);
    LeafValues(2094, 0, s.ccsid, e.topic, s.pad);
    GroupParam(s, a, b, c, 840);
    GroupParam(s, a, b, c, 2714);
    GroupParam(s, a, b, c, 2094);
  }

  lemma ClassReads(s: Style, c: ClassEntry)
    requires ProperClass(c)
    ensures var p := ParamOf(ClassItem(s, c));
            AnnouncesClass(p) && ClassOf(p) == MonitorClass(c.id, c.name, c.topic, [])
  {
    hide ParamOf, LeafOf, LastInt, LastText, GroupOf;
    var x, y, z := WireInt(839, c.id), StringOf(s, 2713, c.name), StringOf(s, 2094, c.topic);
    LeafValues(839, c.id, s.ccsid, c.topic, s.pad);
    LeafValues(2713, 0, s.ccsid, c.name, s.pad);
    LeafValues(2094, 0, s.ccsid, c.topic, s.pad);
    GroupParam(s, x, y, z, 839);
    GroupParam(s, x, y, z, 2713);
    GroupParam(s, x, y, z, 2094);
  }

  // ----- one message -----

  lemma {:induction false} ElementsFrom(s: Style, ps: seq<PcfParam>, topic: Buffer, es: seq<MonitorElement>)
    requires |ps| == 1 + |es| && ps[0].kind == MQCFT_STRING && ps[0].id == 2094 && ps[0].text == topic
    requires forall i :: 0 <= i < |es| ==> ProperElement(es[i]) && ps[i + 1] == ParamOf(ElementItem(s, es[i]))
    ensures ElementsOf(ps) == es && ObjectTopicOf(ps) == topic
    decreases |es|
  {
    hide ParamOf, ElementOf, ElementItem, ProperElement;
    var n := |es|;
    if n == 0 {
      assert ps[..0] == [] && ElementsOf([]) == [];
    } else {
      ElementsFrom(s, ps[..n], topic, es[..n - 1]);
      assert ps[n] == ParamOf(ElementItem(s, es[n - 1]));
      ElementReads(s, es[n - 1]);
      ElementNamed(es[n - 1]);
      assert es == es[..n - 1] + [es[n - 1]];
    }
  }

  lemma ElementNamed(e: MonitorElement)
    requires ProperElement(e)
    ensures e.id != 0
  {
  }

  lemma ElementsRead(s: Style, t: MonitorType)
    requires NoBlankEnd(t.objectTopic) && (forall x :: x in t.elements ==> ProperElement(x))
    requires FitsMessage(ElementsLayout(s, t))
    ensures Usable(Elements(s, t))
    ensures var ps := MessageParams(Elements(s, t).data, 1);
            ObjectTopicOf(ps) == t.objectTopic && ElementsOf(ps) == t.elements
  {
    hide FitsMessage, Written, MessageParams, ParamsOf, ProperElement, ElementItem, LeafOf;
    var m := ElementsLayout(s, t);
    ParamsReadBack(m, 1);
    var ps := ParamsOf(m.items);
    assert ps[0] == ParamOf(m.items[0]) == LeafOf(StringOf(s, 2094, t.objectTopic));
    LeafValues(2094, 0, s.ccsid, t.objectTopic, s.pad);
    StringKind(s, 2094, t.objectTopic);
    forall i | 0 <= i < |t.elements|
      ensures ProperElement(t.elements[i]) && ps[i + 1] == ParamOf(ElementItem(s, t.elements[i]))
    {
      assert m.items[i + 1] == ElementItem(s, t.elements[i]);
    }
    ElementsFrom(s, ps, t.objectTopic, t.elements);
  }

  lemma StringKind(s: Style, id: int32, text: Buffer)
    ensures LeafOf(StringOf(s, id, text)).kind == MQCFT_STRING
  {
    hide TrimBlanks;
  }

  lemma TypeFilled(s: Style, e: TypeEntry)
    requires ProperType(e) && FitsMessage(ElementsLayout(s, e.t))
    ensures TypeOf(ParamOf(TypeItem(s, e)), Elements(s, e.t)) == e.t && e.t.elements != []
  {
    hide FitsMessage, Elements, ElementsLayout, TypeItem, ParamOf, MessageParams, LastInt, LastText, AnnouncesType;
    TypeReads(s, e);
    ElementsRead(s, e.t);
  }

  lemma {:induction false} TypesFrom(s: Style, ps: seq<PcfParam>, types: seq<TypeEntry>)
    requires |ps| == |types| && forall i :: 0 <= i < |types| ==> ps[i] == ParamOf(TypeItem(s, types[i]))
    requires forall i :: 0 <= i < |types| ==> ProperType(types[i]) && FitsMessage(ElementsLayout(s, types[i].t))
    ensures TypesOf(ps, ElementAnswers(s, types)) == TypesIn(types)
    ensures TypeTalk(ps, ElementAnswers(s, types)) == TypeQuestions(s, types)
    decreases |types|
  {
    hide ParamOf, TypeItem, ProperType, FitsMessage, ElementsLayout, Elements, TypeOf, AnnouncesType, LastText, LastInt;
    if types != [] {
      var n := |types| - 1;
      TypesFrom(s, ps[..n], types[..n]);
      assert ElementAnswers(s, types)[..n] == ElementAnswers(s, types[..n]);
      assert ps[n] == ParamOf(TypeItem(s, types[n]));
      TypeReads(s, types[n]);
      TypeFilled(s, types[n]);
      assert TypesIn(types) == TypesIn(types[..n]) + [types[n].t];
      assert TypeQuestions(s, types) == TypeQuestions(s, types[..n]) + [Asked(types[n].topic, Elements(s, types[n].t))];
    }
  }

  lemma TypesRead(s: Style, c: ClassEntry)
    requires ProperClass(c) && ClassFits(s, c)
    ensures Complete(AnswersOf(s, c))
    ensures var cls := MonitorClass(c.id, c.name, c.topic, []);
            && ClassTypes(cls, AnswersOf(s, c)) == TypesIn(c.types) && TypesIn(c.types) != []
            && ClassTalk(cls, AnswersOf(s, c)) ==
               [Asked(c.topic, Message(Written(TypesLayout(s, c.types))))] + TypeQuestions(s, c.types)
  {
    hide FitsMessage, Written, MessageParams, ParamsOf, ParamOf, ProperType, TypeItem, ElementAnswers, ElementsLayout,
         TypesOf, TypeTalk, TypeQuestions;
    var m := TypesLayout(s, c.types);
    ParamsReadBack(m, 1);
    var ps := ParamsOf(m.items);
    forall i | 0 <= i < |c.types|
      ensures ps[i] == ParamOf(TypeItem(s, c.types[i]))
      ensures ProperType(c.types[i]) && FitsMessage(ElementsLayout(s, c.types[i].t))
    {
      assert m.items[i] == TypeItem(s, c.types[i]);
      assert c.types[i] in c.types;
    }
    AnswersAligned(s, c.types);
    TypesFrom(s, ps, c.types);
  }

  lemma AnswersAligned(s: Style, types: seq<TypeEntry>)
    ensures |ElementAnswers(s, types)| == |types|
  {
  }

  // ----- the whole conversation -----

  lemma {:induction false} ClassesFrom(s: Style, ps: seq<PcfParam>, classes: seq<ClassEntry>)
    requires |ps| == |classes| && forall i :: 0 <= i < |classes| ==> ps[i] == ParamOf(ClassItem(s, classes[i]))
    requires forall i :: 0 <= i < |classes| ==> ProperClass(classes[i]) && ClassFits(s, classes[i])
    ensures forall a :: a in AllAnswers(s, classes) ==> Complete(a)
    ensures ClassesOf(ps, AllAnswers(s, classes)) == Catalogue(classes)
    ensures ClassesTalk(ps, AllAnswers(s, classes)) == ClassQuestions(s, classes)
    decreases |classes|
  {
    hide ParamOf, ClassItem, ProperClass, ClassFits, AnswersOf, Complete, ClassTypes, ClassTalk, ClassOf, AnnouncesClass,
         Written, TypesLayout, TypesIn, TypeQuestions;
    if classes != [] {
      var n := |classes| - 1;
      var c := classes[n];
      ClassesFrom(s, ps[..n], classes[..n]);
      var all := AllAnswers(s, classes);
      assert all[..n] == AllAnswers(s, classes[..n]);
      assert all == all[..n] + [AnswersOf(s, c)];
      ClassReads(s, c);
      TypesRead(s, c);
      assert Catalogue(classes) ==
             Catalogue(classes[..n]) + [MonitorClass(c.id, c.name, c.topic, TypesIn(c.types))];
    }
  }

  /** Round trip: whatever catalogue of named classes, types and elements is laid out, in whatever dress,
      discovery returns exactly it, in order, and asks exactly its topics, in order. */
  lemma MetadataRoundTrip(qmgrName: Buffer, s: Style, classes: seq<ClassEntry>)
    requires Fits(s, classes) && forall c :: c in classes ==> ProperClass(c)
    ensures Consistent(Published(s, classes))
    ensures Discovered(Published(s, classes)) == Catalogue(classes)
    ensures Talk(qmgrName, Published(s, classes)) ==
            [Asked(Ascii("$SYS/MQ/INFO/QMGR/") + qmgrName + Ascii("/Monitor/METADATA/CLASSES"),
                   Message(Written(ClassesLayout(s, classes))))] + ClassQuestions(s, classes)
  {
    hide FitsMessage, Written, MessageParams, ParamsOf, ParamOf, ProperClass, ClassItem, AnswersOf, Complete, Ascii,
         ClassesOf, ClassesTalk, ClassQuestions, Catalogue;
    var m := ClassesLayout(s, classes);
    ParamsReadBack(m, 36);
    var ps := ParamsOf(m.items);
    forall i | 0 <= i < |classes|
      ensures ps[i] == ParamOf(ClassItem(s, classes[i]))
      ensures ProperClass(classes[i]) && ClassFits(s, classes[i])
    {
      assert m.items[i] == ClassItem(s, classes[i]);
      assert classes[i] in classes;
    }
    ClassesFrom(s, ps, classes);
  }
}
