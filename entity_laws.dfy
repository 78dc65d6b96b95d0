/**
  What the Siren entity builder promises: when construction succeeds or
  fails, what the lists hold, and what each query accessor answers in terms
  of the entity's own action, link and sub-entity lists.

  The accessor laws hold for every entity that is `Indexed`: its four tables
  are exactly the ones its lists produce. `BuildIsIndexed` shows that every
  built entity is.
*/
module SirenEntityLaws {
  import opened Wrappers
  import opened Json
  import opened Index
  import opened SirenEntity

  // ---------------------------------------------------------------------
  // Views of a built entity

  function ActionList(e: Entity): seq<Action>
  {
    if e.actions.Some? then e.actions.value else []
  }

  function LinkList(e: Entity): seq<Link>
  {
    if e.links.Some? then e.links.value else []
  }

  function ChildList(e: Entity): seq<Child>
  {
    if e.entities.Some? then e.entities.value else []
  }

  /** The keys a sub-entity carries in its `rel`. */
  function ChildRelKeys(c: Child): seq<string>
  {
    match c
    case LinkChild(link) => RelKeys(link.record)
    case EntityChild(e) => if e.rel.Some? then Keys(e.rel.value) else []
  }

  /** The keys a sub-entity carries in its `class`, when that is an array. */
  function ChildClassKeys(c: Child): seq<string>
  {
    match c
    case LinkChild(link) => ClassKeys(link.record)
    case EntityChild(e) => if e.classes.Some? then Keys(e.classes.value) else []
  }

  function ChildRelEntries(children: seq<Child>): seq<Entry<Child>>
  {
    seq(|children|, i requires 0 <= i < |children| => Entry(ChildRelKeys(children[i]), children[i]))
  }

  function ChildClassEntries(children: seq<Child>): seq<Entry<Child>>
  {
    seq(|children|, i requires 0 <= i < |children| => Entry(ChildClassKeys(children[i]), children[i]))
  }

  /** The entity's four tables are the ones its own lists produce. */
  ghost predicate Indexed(e: Entity)
  {
    && e.actionsByName == NameIndex(ActionList(e))
    && e.linksByRel == IndexOf(LinkEntries(LinkList(e)))
    && e.entitiesByRel == IndexOf(ChildRelEntries(ChildList(e)))
    && e.entitiesByClass == IndexOf(ChildClassEntries(ChildList(e)))
  }

  // ---------------------------------------------------------------------
  // When construction succeeds

  /** Past the shape checks, construction succeeds exactly when the three
      lists build, and then assembles them. */
  lemma BuildOutcome(raw: Json)
    requires !raw.JStr? && !raw.JNull? && WellShaped(raw)
    ensures Build(raw).Success? <==>
              && BuildActions(ArrayOr(raw, "actions")).Success?
              && BuildLinks(ArrayOr(raw, "links")).Success?
              && BuildChildren(ArrayOr(raw, "entities")).Success?
    ensures Build(raw).Success? ==>
              && |BuildChildren(ArrayOr(raw, "entities")).value| == |ArrayOr(raw, "entities")|
              && Build(raw).value == Assemble(raw, BuildActions(ArrayOr(raw, "actions")).value,
                                              BuildLinks(ArrayOr(raw, "links")).value,
                                              BuildChildren(ArrayOr(raw, "entities")).value)
  {
    assert FirstMisfit(raw, CheckedFields).None?;
  }

  /** Reference description of the records the builder accepts: not
      `null`, every checked field of the right shape, no `null` action, every
      link with an array `rel`, and every sub-entity with an array `rel` that
      is either a link stub or itself acceptable. */
  ghost predicate Acceptable(raw: Json)
    decreases raw, 2
  {
    && !raw.JNull? && !raw.JStr? && WellShaped(raw)
    && (forall i :: 0 <= i < |ArrayOr(raw, "actions")| ==> !ArrayOr(raw, "actions")[i].JNull?)
    && (forall i :: 0 <= i < |ArrayOr(raw, "links")| ==> ArrayField(ArrayOr(raw, "links")[i], "rel").Some?)
    && AcceptableChildren(raw, ArrayOr(raw, "entities"))
  }

  /** Every one of `subs`, the sub-entity records of `parent`, is
      acceptable. */
  ghost predicate AcceptableChildren(parent: Json, subs: seq<Json>)
    requires subs == ArrayOr(parent, "entities")
    decreases parent, 1
  {
    forall i :: 0 <= i < |subs| ==> AcceptableChild(subs[i])
  }

  /** A sub-entity record is acceptable when its `rel` is an array and it
      is a link stub or an acceptable record itself. */
  ghost predicate AcceptableChild(s: Json)
    decreases s, 3
  {
    ArrayField(s, "rel").Some? && (HasStringHref(s) || Acceptable(s))
  }

  /** Construction succeeds exactly on the acceptable records: a misshapen
      field, a `null` action, a link without an array `rel`, a sub-entity
      without an array `rel`, or any such fault inside a nested sub-entity
      fails the whole construction. */
  lemma {:induction false} BuildSucceedsIff(raw: Json)
    requires !raw.JStr?
    ensures Build(raw).Success? <==> Acceptable(raw)
    decreases raw, 2
  {
    if !raw.JNull? && WellShaped(raw) {
      BuildOutcome(raw);
      var subs := ArrayOr(raw, "entities");
      ChildrenSucceedIff(raw, subs);
    }
  }

  lemma {:induction false} ChildrenSucceedIff(parent: Json, subs: seq<Json>)
    requires subs == ArrayOr(parent, "entities")
    ensures BuildChildren(subs).Success? <==> forall i :: 0 <= i < |subs| ==> AcceptableChild(subs[i])
    decreases parent, 1
  {
    forall i | 0 <= i < |subs| ensures BuildChild(subs[i]).Success? <==> AcceptableChild(subs[i]) {
      ChildSucceedsIff(subs[i]);
    }
    ChildrenSucceedEach(subs);
  }

  /** The sub-entity list builds exactly when each record builds. */
  lemma {:induction false} ChildrenSucceedEach(subs: seq<Json>)
    ensures BuildChildren(subs).Success? <==> forall i :: 0 <= i < |subs| ==> BuildChild(subs[i]).Success?
  {
    if subs != [] {
      ChildrenSucceedEach(subs[1..]);
      assert forall i :: 1 <= i < |subs| ==> subs[i] == subs[1..][i - 1];
    }
  }

  lemma {:induction false} ChildSucceedsIff(s: Json)
    ensures BuildChild(s).Success? <==> AcceptableChild(s)
    decreases s, 3
  {
    if ArrayField(s, "rel").Some? && !HasStringHref(s) {
      BuildSucceedsIff(s);
    }
  }

  /** A misshapen top-level field fails construction, naming the first
      field, in checking order, that is present with the wrong shape. */
  lemma MisshapenFieldFails(raw: Json)
    requires !raw.JStr? && !raw.JNull? && !WellShaped(raw)
    ensures Build(raw).Failure? && Build(raw).error.ShapeError?
    ensures exists i :: 0 <= i < |CheckedFields| && CheckedFields[i].0 == Build(raw).error.field
                        && !Fits(raw, CheckedFields[i])
                        && forall j :: 0 <= j < i ==> Fits(raw, CheckedFields[j])
  {
  }

  /** The first record that fails decides the error of the whole list. */
  lemma {:induction false} FirstChildFailure(subs: seq<Json>, k: nat)
    requires k < |subs| && BuildChild(subs[k]).Failure?
    requires forall j :: 0 <= j < k ==> BuildChild(subs[j]).Success?
    ensures BuildChildren(subs) == Failure(BuildChild(subs[k]).error)
  {
    if k > 0 {
      forall j | 0 <= j < k - 1 ensures BuildChild(subs[1..][j]).Success? {
        assert subs[1..][j] == subs[j + 1];
      }
      assert subs[1..][k - 1] == subs[k];
      FirstChildFailure(subs[1..], k - 1);
    }
  }

  /** A failure inside a nested sub-entity is the failure of its parent:
      when everything before the sub-entities is fine and the `k`-th
      sub-entity is the first one that fails, the parent fails with its
      error. */
  lemma NestedFailure(raw: Json, k: nat)
    requires !raw.JStr? && !raw.JNull? && WellShaped(raw)
    requires BuildActions(ArrayOr(raw, "actions")).Success? && BuildLinks(ArrayOr(raw, "links")).Success?
    requires k < |ArrayOr(raw, "entities")| && BuildChild(ArrayOr(raw, "entities")[k]).Failure?
    requires forall j :: 0 <= j < k ==> BuildChild(ArrayOr(raw, "entities")[j]).Success?
    ensures Build(raw) == Failure(BuildChild(ArrayOr(raw, "entities")[k]).error)
  {
    assert FirstMisfit(raw, CheckedFields).None?;
    FirstChildFailure(ArrayOr(raw, "entities"), k);
  }

  // ---------------------------------------------------------------------
  // What a built entity holds

  /** The sub-entity list has one child per record, each the one that
      record builds. */
  lemma {:induction false} ChildrenPointwise(subs: seq<Json>)
    requires BuildChildren(subs).Success?
    ensures forall i :: 0 <= i < |subs| ==> BuildChild(subs[i]) == Success(BuildChildren(subs).value[i])
  {
    if subs != [] {
      ChildrenPointwise(subs[1..]);
      forall i | 1 <= i < |subs|
        ensures BuildChild(subs[i]) == Success(BuildChildren(subs).value[i])
      {
        assert subs[i] == subs[1..][i - 1];
      }
    }
  }

  /** The action list of a built entity has one Action per action record,
      in order, and is present exactly when the record has `actions`. */
  lemma BuildActionList(raw: Json)
    requires !raw.JStr? && Build(raw).Success?
    ensures var e := Build(raw).value; var acts := ArrayOr(raw, "actions");
            && (e.actions.Some? <==> ArrayField(raw, "actions").Some?)
            && |ActionList(e)| == |acts|
            && forall i :: 0 <= i < |acts| ==> ActionList(e)[i] == Action(acts[i])
  {
    BuildOutcome(raw);
  }

  /** The link list of a built entity has one Link per link record, in
      order, and is present exactly when the record has `links`. */
  lemma BuildLinkList(raw: Json)
    requires !raw.JStr? && Build(raw).Success?
    ensures var e := Build(raw).value; var links := ArrayOr(raw, "links");
            && (e.links.Some? <==> ArrayField(raw, "links").Some?)
            && |LinkList(e)| == |links|
            && forall i :: 0 <= i < |links| ==> LinkList(e)[i] == Link(links[i])
  {
    BuildOutcome(raw);
  }

  /** The sub-entity list of a built entity is the list its records build. */
  lemma BuildChildrenOf(raw: Json)
    requires !raw.JStr? && Build(raw).Success?
    ensures (Build(raw).value.entities.Some? <==> ArrayField(raw, "entities").Some?)
    ensures BuildChildren(ArrayOr(raw, "entities")).Success?
    ensures ChildList(Build(raw).value) == BuildChildren(ArrayOr(raw, "entities")).value
  {
    BuildOutcome(raw);
  }

  /** A built sub-entity is a link stub exactly when its record's `href` is
      a string, and otherwise the entity its record builds. */
  lemma ChildKind(s: Json, c: Child)
    requires BuildChild(s) == Success(c)
    ensures c.LinkChild? <==> HasStringHref(s)
    ensures c.LinkChild? ==> c.link == Link(s)
    ensures c.EntityChild? ==> s.JObj? && Build(s) == Success(c.entity)
  {
  }

  /** The sub-entity list of a built entity follows the records in length
      and order: a link stub exactly when the record's `href` is a string,
      otherwise the entity that record builds. It is present exactly when
      the record has `entities`. */
  lemma BuildChildList(raw: Json)
    requires !raw.JStr? && Build(raw).Success?
    ensures var e := Build(raw).value; var subs := ArrayOr(raw, "entities");
            && (e.entities.Some? <==> ArrayField(raw, "entities").Some?)
            && |ChildList(e)| == |subs|
            && forall i :: 0 <= i < |subs| ==>
                 && (ChildList(e)[i].LinkChild? <==> HasStringHref(subs[i]))
                 && (ChildList(e)[i].LinkChild? ==> ChildList(e)[i].link == Link(subs[i]))
                 && (ChildList(e)[i].EntityChild? ==> subs[i].JObj? && Build(subs[i]) == Success(ChildList(e)[i].entity))
  {
    BuildChildrenOf(raw);
    var subs := ArrayOr(raw, "entities");
    ChildrenPointwise(subs);
    var children := ChildList(Build(raw).value);
    forall i | 0 <= i < |subs|
      ensures children[i].LinkChild? <==> HasStringHref(subs[i])
      ensures children[i].LinkChild? ==> children[i].link == Link(subs[i])
      ensures children[i].EntityChild? ==> subs[i].JObj? && Build(subs[i]) == Success(children[i].entity)
    {
      ChildKind(subs[i], children[i]);
    }
  }

  /** The scalar fields are copied only when truthy: `rel` and `class` when
      present, `title` and `type` when non-empty strings, `properties` when
      an object or an array (a `null` block is dropped). */
  lemma BuildCopiesTruthyFields(raw: Json)
    requires !raw.JStr? && Build(raw).Success?
    ensures var e := Build(raw).value;
            && e.rel == ArrayField(raw, "rel")
            && e.classes == ArrayField(raw, "class")
            && (e.title.Some? <==> Get(raw, "title").Some? && Get(raw, "title").value != JStr(""))
            && (e.title.Some? ==> Get(raw, "title") == Some(JStr(e.title.value)))
            && (e.mediaType.Some? <==> Get(raw, "type").Some? && Get(raw, "type").value != JStr(""))
            && (e.mediaType.Some? ==> Get(raw, "type") == Some(JStr(e.mediaType.value)))
            && (e.properties.Some? <==> Get(raw, "properties").Some? && !Get(raw, "properties").value.JNull?)
            && (e.properties.Some? ==> Get(raw, "properties") == e.properties)
  {
    BuildScalars(raw);
    assert Fits(raw, CheckedFields[1]) && Fits(raw, CheckedFields[2]) && Fits(raw, CheckedFields[3]);
  }

  /** The scalar fields of a built entity, read off the record. */
  lemma BuildScalars(raw: Json)
    requires !raw.JStr? && Build(raw).Success?
    ensures WellShaped(raw)
    ensures var e := Build(raw).value;
            && e.rel == ArrayField(raw, "rel")
            && e.classes == ArrayField(raw, "class")
            && e.title == TruthyString(raw, "title")
            && e.mediaType == TruthyString(raw, "type")
            && e.properties == (if Get(raw, "properties").Some? && Truthy(Get(raw, "properties").value)
                                then Get(raw, "properties") else None)
  {
    assert FirstMisfit(raw, CheckedFields).None?;
    BuildOutcome(raw);
  }

  /** Built sub-entities carry the keys of the records they were built
      from. */
  lemma {:induction false} ChildTags(subs: seq<Json>)
    requires BuildChildren(subs).Success?
    ensures |BuildChildren(subs).value| == |subs|
    ensures RelEntries(subs, BuildChildren(subs).value) == ChildRelEntries(BuildChildren(subs).value)
    ensures ClassEntries(subs, BuildChildren(subs).value) == ChildClassEntries(BuildChildren(subs).value)
  {
    var children := BuildChildren(subs).value;
    ChildrenPointwise(subs);
    forall i | 0 <= i < |subs|
      ensures ChildRelKeys(children[i]) == RelKeys(subs[i]) && ChildClassKeys(children[i]) == ClassKeys(subs[i])
    {
      if children[i].EntityChild? {
        assert BuildChild(subs[i]) == Success(children[i]);
        assert Build(subs[i]) == Success(children[i].entity);
        BuildCopiesTruthyFields(subs[i]);
      }
    }
  }

  /** Every built entity is indexed: its tables are the ones its lists
      produce. */
  lemma BuildIsIndexed(raw: Json)
    requires !raw.JStr? && Build(raw).Success?
    ensures Indexed(Build(raw).value)
  {
    BuildOutcome(raw);
    ChildTags(ArrayOr(raw, "entities"));
  }

  // ---------------------------------------------------------------------
  // The accessors

  /** The name table holds a key exactly when some action has it. */
  lemma {:induction false} NameIndexKeys(actions: seq<Action>, name: string)
    ensures name in NameIndex(actions) <==> exists i :: 0 <= i < |actions| && actions[i].Key() == name
  {
    if actions != [] {
      var init, last := actions[..|actions| - 1], actions[|actions| - 1];
      NameIndexKeys(init, name);
      if name in NameIndex(init) {
        var i :| 0 <= i < |init| && init[i].Key() == name;
        assert actions[i] == init[i];
      }
      if exists i :: 0 <= i < |actions| && actions[i].Key() == name {
        var i :| 0 <= i < |actions| && actions[i].Key() == name;
        if i < |init| { assert init[i] == actions[i]; }
      }
    }
  }

  /** Under a key it holds, the name table holds the last action with that
      key: later duplicates overwrite earlier ones. */
  lemma {:induction false} NameIndexLast(actions: seq<Action>, name: string)
    requires name in NameIndex(actions)
    ensures exists i :: 0 <= i < |actions| && NameIndex(actions)[name] == actions[i] && actions[i].Key() == name
                        && forall j :: i < j < |actions| ==> actions[j].Key() != name
  {
    var n := |actions| - 1;
    var init, last := actions[..n], actions[n];
    assert NameIndex(actions) == NameIndex(init)[last.Key() := last];
    if last.Key() != name {
      assert name in NameIndex(init) && NameIndex(actions)[name] == NameIndex(init)[name];
      NameIndexLast(init, name);
      var i :| 0 <= i < |init| && NameIndex(init)[name] == init[i] && init[i].Key() == name
               && forall j :: i < j < |init| ==> init[j].Key() != name;
      assert forall j :: 0 <= j < n ==> actions[j] == init[j];
      assert actions[i] == init[i];
    }
  }

  /** `hasAction(n)` holds exactly when some action is named `n`. */
  lemma HasActionIff(e: Entity, name: string)
    requires Indexed(e)
    ensures HasAction(e, name) <==> exists i :: 0 <= i < |ActionList(e)| && ActionList(e)[i].Key() == name
  {
    NameIndexKeys(ActionList(e), name);
  }

  /** `getAction(n)` is the last action named `n`, or `None` when there is
      none: later duplicates overwrite earlier ones. */
  lemma GetActionIsLast(e: Entity, name: string)
    requires Indexed(e)
    ensures GetAction(e, name).None? <==> forall i :: 0 <= i < |ActionList(e)| ==> ActionList(e)[i].Key() != name
    ensures GetAction(e, name).Some? ==>
              exists i :: 0 <= i < |ActionList(e)| && ActionList(e)[i] == GetAction(e, name).value
                          && ActionList(e)[i].Key() == name
                          && forall j :: i < j < |ActionList(e)| ==> ActionList(e)[j].Key() != name
  {
    NameIndexKeys(ActionList(e), name);
    if name in e.actionsByName {
      NameIndexLast(ActionList(e), name);
    }
  }

  /** `getLinks(r)` is the ordered filter of the links by `rel`: every link
      whose `rel` has key `r`, in document order, once per occurrence, and
      the empty list when there is none. */
  lemma GetLinksIsFilter(e: Entity, rel: string)
    requires Indexed(e)
    ensures GetLinks(e, rel) == Bucket(LinkEntries(LinkList(e)), rel)
  {
    IndexOfBuckets(LinkEntries(LinkList(e)), rel);
  }

  /** A link is among `getLinks(r)` exactly when its `rel` has key `r`. */
  lemma GetLinksMembers(e: Entity, rel: string, x: Link)
    requires Indexed(e)
    ensures x in GetLinks(e, rel) <==>
            exists i :: 0 <= i < |LinkList(e)| && LinkList(e)[i] == x && rel in RelKeys(x.record)
  {
    GetLinksIsFilter(e, rel);
    var entries := LinkEntries(LinkList(e));
    BucketMembership(entries, rel, x);
    assert forall i :: 0 <= i < |entries| ==> entries[i] == Entry(RelKeys(LinkList(e)[i].record), LinkList(e)[i]);
  }

  /** `hasLink(r)` holds exactly when `getLinks(r)` is not empty, which is
      exactly when some link's `rel` has key `r`. */
  lemma HasLinkIff(e: Entity, rel: string)
    requires Indexed(e)
    ensures HasLink(e, rel) <==> GetLinks(e, rel) != []
    ensures HasLink(e, rel) <==> exists i :: 0 <= i < |LinkList(e)| && rel in RelKeys(LinkList(e)[i].record)
  {
    var entries := LinkEntries(LinkList(e));
    IndexOfKeys(entries, rel);
    GetLinksIsFilter(e, rel);
    BucketEmpty(entries, rel);
    assert forall i :: 0 <= i < |entries| ==> entries[i].tags == RelKeys(LinkList(e)[i].record);
  }

  /** `getLink(r)` is `None` exactly when no link's `rel` has key `r`. */
  lemma GetLinkNone(e: Entity, rel: string)
    requires Indexed(e)
    ensures GetLink(e, rel).None? <==> forall i :: 0 <= i < |LinkList(e)| ==> rel !in RelKeys(LinkList(e)[i].record)
  {
    var entries := LinkEntries(LinkList(e));
    GetLinksIsFilter(e, rel);
    BucketEmpty(entries, rel);
    assert forall i :: 0 <= i < |entries| ==> entries[i].tags == RelKeys(LinkList(e)[i].record);
  }

  /** `getLink(r)` is the first link, in document order, whose `rel` has
      key `r`, and `None` when there is none. */
  lemma GetLinkIsFirst(e: Entity, rel: string)
    requires Indexed(e)
    ensures GetLink(e, rel).None? <==> forall i :: 0 <= i < |LinkList(e)| ==> rel !in RelKeys(LinkList(e)[i].record)
    ensures GetLink(e, rel).Some? ==>
              exists i :: 0 <= i < |LinkList(e)| && LinkList(e)[i] == GetLink(e, rel).value
                          && rel in RelKeys(LinkList(e)[i].record)
                          && forall j :: 0 <= j < i ==> rel !in RelKeys(LinkList(e)[j].record)
  {
    GetLinkNone(e, rel);
    if GetLink(e, rel).Some? {
      var links := LinkList(e);
      var entries := LinkEntries(links);
      GetLinksIsFilter(e, rel);
      BucketHead(entries, rel);
      var i :| 0 <= i < |entries| && rel in entries[i].tags && Bucket(entries, rel)[0] == entries[i].item
               && forall j :: 0 <= j < i ==> rel !in entries[j].tags;
      assert forall j :: 0 <= j < |entries| ==> entries[j] == Entry(RelKeys(links[j].record), links[j]);
      assert links[i] == GetLink(e, rel).value;
    }
  }

  /** `getSubEntities(r)` is the ordered filter of the sub-entities by
      `rel`: every one whose `rel` has key `r`, in document order. */
  lemma GetSubEntitiesIsFilter(e: Entity, rel: string)
    requires Indexed(e)
    ensures GetSubEntities(e, rel) == Bucket(ChildRelEntries(ChildList(e)), rel)
  {
    IndexOfBuckets(ChildRelEntries(ChildList(e)), rel);
  }

  /** `hasEntity(r)` holds exactly when `getSubEntities(r)` is not empty,
      and `getSubEntity(r)` is the first element of `getSubEntities(r)`. */
  lemma HasEntityIff(e: Entity, rel: string)
    requires Indexed(e)
    ensures HasEntity(e, rel) <==> GetSubEntities(e, rel) != []
    ensures GetSubEntity(e, rel) == if GetSubEntities(e, rel) == [] then None else Some(GetSubEntities(e, rel)[0])
  {
    var entries := ChildRelEntries(ChildList(e));
    IndexOfKeys(entries, rel);
    GetSubEntitiesIsFilter(e, rel);
    BucketEmpty(entries, rel);
  }

  /** `getSubEntitiesByClass(c)` is the ordered filter of the sub-entities
      by `class`, and `getSubEntityByClass(c)` its first element. */
  lemma GetSubEntitiesByClassIsFilter(e: Entity, cls: string)
    requires Indexed(e)
    ensures GetSubEntitiesByClass(e, cls) == Bucket(ChildClassEntries(ChildList(e)), cls)
    ensures GetSubEntityByClass(e, cls) ==
              if GetSubEntitiesByClass(e, cls) == [] then None else Some(GetSubEntitiesByClass(e, cls)[0])
  {
    IndexOfBuckets(ChildClassEntries(ChildList(e)), cls);
  }

  /** For a built entity, `getSubEntitiesByClass(c)` is the ordered
      filter of its sub-entities by the `class` arrays of the records they
      were built from. */
  lemma ByClassIsRecordFilter(raw: Json, cls: string)
    requires !raw.JStr? && Build(raw).Success?
    ensures |ChildList(Build(raw).value)| == |ArrayOr(raw, "entities")|
    ensures GetSubEntitiesByClass(Build(raw).value, cls) ==
              Bucket(ClassEntries(ArrayOr(raw, "entities"), ChildList(Build(raw).value)), cls)
  {
    BuildOutcome(raw);
    var subs := ArrayOr(raw, "entities");
    IndexOfBuckets(ClassEntries(subs, BuildChildren(subs).value), cls);
  }

  /** For a built entity, a sub-entity is listed under class `c` exactly
      when the record it was built from has a `class` array with key `c`;
      a sub-entity without a `class` array is never class-indexed. */
  lemma ByClassMembers(raw: Json, cls: string, x: Child)
    requires !raw.JStr? && Build(raw).Success?
    ensures var e := Build(raw).value; var subs := ArrayOr(raw, "entities");
            |ChildList(e)| == |subs| &&
            (x in GetSubEntitiesByClass(e, cls) <==>
               exists i :: 0 <= i < |subs| && ChildList(e)[i] == x
                           && ArrayField(subs[i], "class").Some? && cls in Keys(ArrayField(subs[i], "class").value))
  {
    ByClassIsRecordFilter(raw, cls);
    var children := ChildList(Build(raw).value);
    var subs := ArrayOr(raw, "entities");
    var entries := ClassEntries(subs, children);
    BucketMembership(entries, cls, x);
    assert forall i :: 0 <= i < |entries| ==> entries[i] == Entry(ClassKeys(subs[i]), children[i]);
  }

  /** `hasClass(c)` holds exactly when the record's `class` array holds the
      string `c`. */
  lemma HasClassIff(raw: Json, cls: string)
    requires !raw.JStr? && Build(raw).Success?
    ensures HasClass(Build(raw).value, cls) <==> JStr(cls) in ArrayOr(raw, "class")
  {
    BuildCopiesTruthyFields(raw);
  }

  /** `hasProperty(p)` on a built entity whose `properties` is an object
      asks whether that object has key `p`. */
  lemma HasPropertyOfObject(raw: Json, name: string)
    requires !raw.JStr? && Build(raw).Success?
    requires Get(raw, "properties").Some? && Get(raw, "properties").value.JObj?
    ensures Build(raw).value.properties.Some? && !Build(raw).value.properties.value.JNull?
    ensures HasProperty(Build(raw).value, name) <==> name in Get(raw, "properties").value.fields
  {
    BuildCopiesTruthyFields(raw);
  }
}
