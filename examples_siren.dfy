/**
  Two documents worked through the model: an order with one action, one
  link and one embedded link stub, and a document with two links sharing
  the relation "alternate". Each lemma takes the document as a parameter
  pinned by its precondition.
*/
module SirenEntityExamples {
  import opened Wrappers
  import opened Json
  import opened Index
  import opened SirenEntity
  import opened SirenEntityLaws

  function CancelAction(): Json { JObj(map["name" := JStr("cancel")]) }
  function SelfLink(): Json { JObj(map["rel" := JArr([JStr("self")]), "href" := JStr("/o/1")]) }
  function LineStub(): Json { JObj(map["rel" := JArr([JStr("item")]), "href" := JStr("/o/1/line/1")]) }

  /** {"rel":["item"],"class":["order"],"actions":[{"name":"cancel"}],
      "links":[{"rel":["self"],"href":"/o/1"}],
      "entities":[{"rel":["item"],"href":"/o/1/line/1"}]} */
  function OrderDocument(): Json
  {
    JObj(map[
      "rel" := JArr([JStr("item")]),
      "class" := JArr([JStr("order")]),
      "actions" := JArr([CancelAction()]),
      "links" := JArr([SelfLink()]),
      "entities" := JArr([LineStub()])])
  }

  lemma OrderFitsFirst(raw: Json)
    requires raw == OrderDocument()
    ensures Fits(raw, CheckedFields[0]) && Fits(raw, CheckedFields[1])
    ensures Fits(raw, CheckedFields[2]) && Fits(raw, CheckedFields[3])
  {
  }

  lemma OrderFitsLast(raw: Json)
    requires raw == OrderDocument()
    ensures Fits(raw, CheckedFields[4]) && Fits(raw, CheckedFields[5])
    ensures Fits(raw, CheckedFields[6]) && Fits(raw, CheckedFields[7])
  {
  }

  lemma OrderFits(raw: Json)
    requires raw == OrderDocument()
    ensures WellShaped(raw)
  {
    OrderFitsFirst(raw);
    OrderFitsLast(raw);
  }

  lemma OrderFields(raw: Json)
    requires raw == OrderDocument()
    ensures ArrayOr(raw, "actions") == [CancelAction()]
    ensures ArrayOr(raw, "links") == [SelfLink()]
    ensures ArrayOr(raw, "entities") == [LineStub()]
    ensures ArrayField(raw, "class") == Some([JStr("order")])
  {
  }

  lemma OrderLists()
    ensures BuildActions([CancelAction()]) == Success([Action(CancelAction())])
    ensures BuildLinks([SelfLink()]) == Success([Link(SelfLink())])
    ensures BuildChildren([LineStub()]) == Success([LinkChild(Link(LineStub()))])
  {
    var actions := BuildActions([CancelAction()]);
    assert actions.Success? && actions.value == [Action(CancelAction())];
    assert ArrayField(SelfLink(), "rel").Some?;
    var links := BuildLinks([SelfLink()]);
    assert links.Success? && links.value == [Link(SelfLink())];
    assert BuildChild(LineStub()) == Success(LinkChild(Link(LineStub())));
    assert [LineStub()][1..] == [];
    assert BuildChildren([]) == Success([]);
    assert [LinkChild(Link(LineStub()))] + [] == [LinkChild(Link(LineStub()))];
  }

  lemma OrderBuild(raw: Json)
    requires raw == OrderDocument()
    ensures Build(raw) == Success(Assemble(raw, [Action(CancelAction())], [Link(SelfLink())], [LinkChild(Link(LineStub()))]))
  {
    OrderFits(raw);
    OrderFields(raw);
    OrderLists();
    BuildOutcome(raw);
  }

  /** A table of one entry with one tag holds that entry's item alone. */
  lemma SingleEntry<T>(key: string, x: T)
    ensures IndexOf([Entry([key], x)]) == map[key := [x]]
  {
    var empty: map<string, seq<T>> := map[];
    assert [Entry([key], x)][..0] == [];
    assert IndexOf([Entry([key], x)]) == FileUnder(empty, [key], x);
    assert [key][..0] == [];
    assert FileUnder(empty, [key], x) == Push(empty, key, x);
    assert [] + [x] == [x];
  }

  /** The tables of the entity the order document builds. */
  lemma OrderTables(raw: Json)
    requires raw == OrderDocument()
    ensures var e := Assemble(raw, [Action(CancelAction())], [Link(SelfLink())], [LinkChild(Link(LineStub()))]);
            && e.classes == Some([JStr("order")])
            && e.actionsByName == map["cancel" := Action(CancelAction())]
            && e.linksByRel == map["self" := [Link(SelfLink())]]
            && e.entitiesByRel == map["item" := [LinkChild(Link(LineStub()))]]
  {
    OrderFields(raw);
    var actions := [Action(CancelAction())];
    assert actions[..0] == [];
    assert Action(CancelAction()).Key() == "cancel";
    assert Keys([JStr("self")]) == ["self"];
    assert LinkEntries([Link(SelfLink())]) == [Entry(["self"], Link(SelfLink()))];
    SingleEntry("self", Link(SelfLink()));
    assert Keys([JStr("item")]) == ["item"];
    assert RelEntries([LineStub()], [LinkChild(Link(LineStub()))]) == [Entry(["item"], LinkChild(Link(LineStub())))];
    SingleEntry("item", LinkChild(Link(LineStub())));
  }

  /** What the queries answer on an entity with the order's tables. */
  lemma OrderQueries(e: Entity)
    requires e.classes == Some([JStr("order")])
    requires e.actionsByName == map["cancel" := Action(CancelAction())]
    requires e.linksByRel == map["self" := [Link(SelfLink())]]
    requires e.entitiesByRel == map["item" := [LinkChild(Link(LineStub()))]]
    ensures HasClass(e, "order")
    ensures GetAction(e, "cancel") == Some(Action(CancelAction()))
    ensures GetLink(e, "self") == Some(Link(SelfLink()))
    ensures GetSubEntities(e, "item") == [LinkChild(Link(LineStub()))]
  {
    assert JStr("order") in [JStr("order")];
  }

  /** The order document builds; it has class "order" and the action
      "cancel"; its "self" link points at /o/1; and its one "item"
      sub-entity is a link stub pointing at /o/1/line/1. */
  lemma OrderDocumentQueries(raw: Json)
    requires raw == OrderDocument()
    ensures Build(raw).Success?
    ensures var e := Build(raw).value;
            && HasClass(e, "order")
            && GetAction(e, "cancel").Some?
            && GetLink(e, "self").Some? && GetLink(e, "self").value.Href() == Some(JStr("/o/1"))
            && |GetSubEntities(e, "item")| == 1
            && GetSubEntities(e, "item")[0].LinkChild?
            && GetSubEntities(e, "item")[0].link.Href() == Some(JStr("/o/1/line/1"))
  {
    OrderBuild(raw);
    OrderTables(raw);
    OrderQueries(Build(raw).value);
    assert Link(SelfLink()).Href() == Some(JStr("/o/1"));
    assert Link(LineStub()).Href() == Some(JStr("/o/1/line/1"));
  }

  function AlternateLink(href: string): Json
  {
    JObj(map["rel" := JArr([JStr("alternate")]), "href" := JStr(href)])
  }

  /** {"links":[{"rel":["alternate"],"href":"/a"},{"rel":["alternate"],"href":"/b"}]} */
  function AlternatesDocument(): Json
  {
    JObj(map["links" := JArr([AlternateLink("/a"), AlternateLink("/b")])])
  }

  lemma AlternatesFit(raw: Json)
    requires raw == AlternatesDocument()
    ensures WellShaped(raw)
  {
    assert Fits(raw, CheckedFields[0]) && Fits(raw, CheckedFields[1]) && Fits(raw, CheckedFields[2]);
    assert Fits(raw, CheckedFields[3]) && Fits(raw, CheckedFields[4]) && Fits(raw, CheckedFields[5]);
    assert Fits(raw, CheckedFields[6]) && Fits(raw, CheckedFields[7]);
  }

  lemma AlternatesFields(raw: Json)
    requires raw == AlternatesDocument()
    ensures ArrayOr(raw, "links") == [AlternateLink("/a"), AlternateLink("/b")]
    ensures ArrayOr(raw, "actions") == []
    ensures ArrayOr(raw, "entities") == []
    ensures ArrayField(raw, "entities").None?
  {
  }

  lemma AlternatesLists()
    ensures BuildActions([]) == Success([])
    ensures BuildLinks([AlternateLink("/a"), AlternateLink("/b")]) ==
            Success([Link(AlternateLink("/a")), Link(AlternateLink("/b"))])
    ensures BuildChildren([]) == Success([])
  {
    var a, b := AlternateLink("/a"), AlternateLink("/b");
    assert ArrayField(a, "rel").Some? && ArrayField(b, "rel").Some?;
    var links := BuildLinks([a, b]);
    assert links.Success? && links.value == [Link(a), Link(b)];
  }

  lemma AlternatesBuild(raw: Json)
    requires raw == AlternatesDocument()
    ensures Build(raw) == Success(Assemble(raw, [], [Link(AlternateLink("/a")), Link(AlternateLink("/b"))], []))
  {
    AlternatesFit(raw);
    AlternatesFields(raw);
    AlternatesLists();
    BuildOutcome(raw);
  }

  lemma AlternatesBucket()
    ensures Bucket(LinkEntries([Link(AlternateLink("/a")), Link(AlternateLink("/b"))]), "alternate")
            == [Link(AlternateLink("/a")), Link(AlternateLink("/b"))]
  {
    var a, b := Link(AlternateLink("/a")), Link(AlternateLink("/b"));
    assert Keys([JStr("alternate")]) == ["alternate"];
    var entries := LinkEntries([a, b]);
    assert entries == [Entry(["alternate"], a), Entry(["alternate"], b)];
    assert entries[1..][1..] == [];
    assert multiset(["alternate"])["alternate"] == 1;
    assert Repeat(a, 1) == [a] && Repeat(b, 1) == [b];
  }

  /** Two links sharing "alternate" are both listed, in document order, and
      `getLink` answers the first. */
  lemma AlternatesInOrder(raw: Json)
    requires raw == AlternatesDocument()
    ensures Build(raw).Success?
    ensures var e := Build(raw).value;
            && GetLinks(e, "alternate") == [Link(AlternateLink("/a")), Link(AlternateLink("/b"))]
            && GetLink(e, "alternate") == Some(Link(AlternateLink("/a")))
  {
    AlternatesBuild(raw);
    var links := [Link(AlternateLink("/a")), Link(AlternateLink("/b"))];
    assert Build(raw).value.linksByRel == IndexOf(LinkEntries(links));
    IndexOfBuckets(LinkEntries(links), "alternate");
    AlternatesBucket();
  }
}
