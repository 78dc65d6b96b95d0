/**
  The Siren entity builder of src/Entity.js.

  `Build` is the meaning of the constructor on an already-parsed record: the
  shape checks on the top-level fields, the copy of the scalar fields when
  they are truthy, the action, link and sub-entity lists and the four lookup
  tables built from them. `ConstructRecord` is the constructor as the source
  runs it: one pass of loops that push onto the lists and file each item into
  the tables as it goes, recursing into embedded sub-entities. It is proved
  to produce exactly `Build`. The query accessors follow at the end.
*/
module SirenEntity {
  import opened Wrappers
  import opened Json
  import opened Index

  /** Why construction failed. */
  datatype Error =
    | ShapeError(field: string)  // a top-level field is present with the wrong shape
    | SubEntityRelError          // an embedded sub-entity's `rel` is not an array
    | TypeError                  // a property read on `null`, or `rel.forEach` on a non-array

  /** An action, as the Action collaborator builds it from its raw record.
      The core only reads its name. */
  datatype Action = Action(record: Json) {
    /** The key the action is stored under: its `name` as a property key;
        an action without a name is stored under "undefined". */
    function Key(): string
    {
      match Get(record, "name")
      case Some(name) => PropertyKey(name)
      case None => "undefined"
    }
  }

  /** A link, as the Link collaborator builds it from its raw record. The
      core only reads its `rel` list and, for sub-entities, its `href`. */
  datatype Link = Link(record: Json) {
    function Href(): Option<Json>
    {
      Get(record, "href")
    }
  }

  /** An embedded sub-entity: a link stub when its record has a string
      `href`, otherwise a fully built entity. */
  datatype Child = LinkChild(link: Link) | EntityChild(entity: Entity)

  /** A built entity. A list field is `None` when the record had no such
      key; the four tables are always present. */
  datatype Entity = Entity(
    rel: Option<seq<Json>>,
    title: Option<string>,
    mediaType: Option<string>,  // the record's `type`
    properties: Option<Json>,
    classes: Option<seq<Json>>, // the record's `class`
    actions: Option<seq<Action>>,
    links: Option<seq<Link>>,
    entities: Option<seq<Child>>,
    actionsByName: map<string, Action>,
    linksByRel: map<string, seq<Link>>,
    entitiesByRel: map<string, seq<Child>>,
    entitiesByClass: map<string, seq<Child>>)

  /** What the constructor is given: a raw record, or an entity it has
      already built. */
  datatype Input = Raw(json: Json) | Built(entity: Entity)

  // ---------------------------------------------------------------------
  // Reading the raw record

  /** Field `key` of `v` when it is an array. */
  function ArrayField(v: Json, key: string): (r: Option<seq<Json>>)
    ensures r.Some? <==> v.JObj? && key in v.fields && v.fields[key].JArr?
    ensures r.Some? ==> v.fields[key] == JArr(r.value)
  {
    match Get(v, key)
    case Some(JArr(elems)) => Some(elems)
    case _ => None
  }

  /** The elements of array field `key`, or none. */
  function ArrayOr(v: Json, key: string): seq<Json>
  {
    if ArrayField(v, key).Some? then ArrayField(v, key).value else []
  }

  /** Field `key` of `v` when it is a non-empty (truthy) string. */
  function TruthyString(v: Json, key: string): Option<string>
  {
    match Get(v, key)
    case Some(JStr(s)) => if s != "" then Some(s) else None
    case _ => None
  }

  /** The keys a record is filed under by its `rel` array (none when it has
      no `rel` array). */
  function RelKeys(v: Json): seq<string>
  {
    match ArrayField(v, "rel")
    case Some(elems) => Keys(elems)
    case None => []
  }

  /** The keys a record is filed under by its `class` array (none when it
      has no `class` array). */
  function ClassKeys(v: Json): seq<string>
  {
    match ArrayField(v, "class")
    case Some(elems) => Keys(elems)
    case None => []
  }

  /** Whether the record's `href` is a string: what makes a sub-entity a
      link stub. */
  predicate HasStringHref(v: Json)
  {
    match Get(v, "href")
    case Some(JStr(_)) => true
    case _ => false
  }

  // ---------------------------------------------------------------------
  // The shape checks

  datatype Shape = ArrayShape | StringShape | ObjectShape

  /** The top-level fields, in the order they are checked, with the shape
      each must have when present. */
  const CheckedFields: seq<(string, Shape)> := [
    ("rel", ArrayShape), ("title", StringShape), ("type", StringShape),
    ("properties", ObjectShape), ("class", ArrayShape), ("actions", ArrayShape),
    ("links", ArrayShape), ("entities", ArrayShape)]

  /** Whether `v` has shape `s`. `typeof v === 'object'` holds of objects,
      arrays and `null`. */
  predicate HasShape(v: Json, s: Shape)
  {
    match s
    case ArrayShape => v.JArr?
    case StringShape => v.JStr?
    case ObjectShape => v.JObj? || v.JArr? || v.JNull?
  }

  /** A field fits when it is absent or has its shape. */
  predicate Fits(raw: Json, field: (string, Shape))
  {
    match Get(raw, field.0)
    case None => true
    case Some(v) => HasShape(v, field.1)
  }

  /** Every checked field fits. */
  predicate WellShaped(raw: Json)
  {
    forall i :: 0 <= i < |CheckedFields| ==> Fits(raw, CheckedFields[i])
  }

  /** The first of `fields` that does not fit: the assertion that fails. */
  function FirstMisfit(raw: Json, fields: seq<(string, Shape)>): (r: Option<string>)
    ensures r.None? <==> forall i :: 0 <= i < |fields| ==> Fits(raw, fields[i])
    ensures r.Some? ==> exists i :: 0 <= i < |fields| && fields[i].0 == r.value && !Fits(raw, fields[i])
                                    && forall j :: 0 <= j < i ==> Fits(raw, fields[j])
  {
    if fields == [] then None
    else if !Fits(raw, fields[0]) then Some(fields[0].0)
    else
      var r := FirstMisfit(raw, fields[1..]);
      assert r.None? ==> forall i :: 0 <= i < |fields| ==> Fits(raw, fields[i]) by {
        forall i | 1 <= i < |fields| ensures r.None? ==> Fits(raw, fields[i]) {
          assert fields[i] == fields[1..][i - 1];
        }
      }
      assert r.Some? ==> exists i :: 0 <= i < |fields| && fields[i].0 == r.value && !Fits(raw, fields[i])
                                      && forall j :: 0 <= j < i ==> Fits(raw, fields[j]) by {
        if r.Some? {
          var k :| 0 <= k < |fields| - 1 && fields[1..][k].0 == r.value && !Fits(raw, fields[1..][k])
                   && forall j :: 0 <= j < k ==> Fits(raw, fields[1..][j]);
          forall j | 0 <= j < k + 1 ensures Fits(raw, fields[j]) {
            if j > 0 { assert fields[j] == fields[1..][j - 1]; }
          }
        }
      }
      r
  }

  // ---------------------------------------------------------------------
  // The meaning of construction

  /** The action list: one Action per record, in order. Reading the `name`
      of a `null` record fails. */
  function BuildActions(raws: seq<Json>): (r: Result<seq<Action>, Error>)
    ensures r.Success? <==> forall i :: 0 <= i < |raws| ==> !raws[i].JNull?
    ensures r.Success? ==> |r.value| == |raws| && forall i :: 0 <= i < |raws| ==> r.value[i] == Action(raws[i])
    ensures r.Failure? ==> r.error == TypeError
  {
    if raws == [] then Success([])
    else if raws[0].JNull? then Failure(TypeError)
    else
      var rest :- BuildActions(raws[1..]);
      assert forall i :: 1 <= i < |raws| ==> raws[i] == raws[1..][i - 1];
      Success([Action(raws[0])] + rest)
  }

  /** The link list: one Link per record, in order. Iterating over a `rel`
      that is not an array fails. */
  function BuildLinks(raws: seq<Json>): (r: Result<seq<Link>, Error>)
    ensures r.Success? <==> forall i :: 0 <= i < |raws| ==> ArrayField(raws[i], "rel").Some?
    ensures r.Success? ==> |r.value| == |raws| && forall i :: 0 <= i < |raws| ==> r.value[i] == Link(raws[i])
    ensures r.Failure? ==> r.error == TypeError
  {
    if raws == [] then Success([])
    else if ArrayField(raws[0], "rel").None? then Failure(TypeError)
    else
      var rest :- BuildLinks(raws[1..]);
      assert forall i :: 1 <= i < |raws| ==> raws[i] == raws[1..][i - 1];
      Success([Link(raws[0])] + rest)
  }

  /** One embedded sub-entity: reading `rel` of `null` fails; otherwise its
      `rel` must be an array (an empty one passes); then it is a link stub
      when its `href` is a string and a recursively built entity otherwise. */
  function BuildChild(raw: Json): Result<Child, Error>
    decreases raw, 3
  {
    if raw.JNull? then Failure(TypeError)
    else if ArrayField(raw, "rel").None? then Failure(SubEntityRelError)
    else if HasStringHref(raw) then Success(LinkChild(Link(raw)))
    else
      var e :- Build(raw);
      Success(EntityChild(e))
  }

  /** The sub-entity list, built in order; the first failure is the result. */
  function BuildChildren(raws: seq<Json>): (r: Result<seq<Child>, Error>)
    ensures r.Success? ==> |r.value| == |raws|
    decreases raws, 1
  {
    if raws == [] then Success([])
    else
      var child :- BuildChild(raws[0]);
      var rest :- BuildChildren(raws[1..]);
      Success([child] + rest)
  }

  /** The links, each filed under the keys of its record's `rel`. */
  function LinkEntries(links: seq<Link>): seq<Entry<Link>>
  {
    seq(|links|, i requires 0 <= i < |links| => Entry(RelKeys(links[i].record), links[i]))
  }

  /** The sub-entities, each filed under the keys of its record's `rel`. */
  function RelEntries(raws: seq<Json>, children: seq<Child>): seq<Entry<Child>>
    requires |raws| == |children|
  {
    seq(|raws|, i requires 0 <= i < |raws| => Entry(RelKeys(raws[i]), children[i]))
  }

  /** The sub-entities, each filed under the keys of its record's `class`
      when that is an array. */
  function ClassEntries(raws: seq<Json>, children: seq<Child>): seq<Entry<Child>>
    requires |raws| == |children|
  {
    seq(|raws|, i requires 0 <= i < |raws| => Entry(ClassKeys(raws[i]), children[i]))
  }

  lemma LinkEntriesAppend(links: seq<Link>, link: Link)
    ensures LinkEntries(links + [link]) == LinkEntries(links) + [Entry(RelKeys(link.record), link)]
  {
  }

  /** Filing one more sub-entity into the tables of the ones before it. */
  lemma ChildTablesStep(raws: seq<Json>, i: nat, children: seq<Child>, child: Child)
    requires i < |raws| && |children| == i
    ensures IndexOf(RelEntries(raws[..i + 1], children + [child])) ==
            FileUnder(IndexOf(RelEntries(raws[..i], children)), RelKeys(raws[i]), child)
    ensures IndexOf(ClassEntries(raws[..i + 1], children + [child])) ==
            FileUnder(IndexOf(ClassEntries(raws[..i], children)), ClassKeys(raws[i]), child)
  {
    assert RelEntries(raws[..i + 1], children + [child]) == RelEntries(raws[..i], children) + [Entry(RelKeys(raws[i]), child)];
    assert ClassEntries(raws[..i + 1], children + [child]) == ClassEntries(raws[..i], children) + [Entry(ClassKeys(raws[i]), child)];
    IndexOfSnoc(RelEntries(raws[..i], children), Entry(RelKeys(raws[i]), child));
    IndexOfSnoc(ClassEntries(raws[..i], children), Entry(ClassKeys(raws[i]), child));
  }

  /** The name table: each action stored under its key, a later action
      replacing an earlier one with the same key. */
  function NameIndex(actions: seq<Action>): map<string, Action>
  {
    if actions == [] then map[]
    else
      var last := actions[|actions| - 1];
      NameIndex(actions[..|actions| - 1])[last.Key() := last]
  }

  /** The entity the constructor builds from a parsed record. JSON text is
      not a parsed record, hence the precondition. */
  function Build(raw: Json): Result<Entity, Error>
    requires !raw.JStr?
    decreases raw, 2
  {
    if raw.JNull? then Failure(TypeError)
    else match FirstMisfit(raw, CheckedFields)
    case Some(field) => Failure(ShapeError(field))
    case None =>
      var actions :- BuildActions(ArrayOr(raw, "actions"));
      var links :- BuildLinks(ArrayOr(raw, "links"));
      var rawChildren := ArrayField(raw, "entities");
      var children :- if rawChildren.Some? then BuildChildren(rawChildren.value) else Success([]);
      Success(Assemble(raw, actions, links, children))
  }

  /** The entity made of the record's truthy scalar fields, the three built
      lists (each present when its key is) and the tables built from them. */
  function Assemble(raw: Json, actions: seq<Action>, links: seq<Link>, children: seq<Child>): Entity
    requires |children| == |ArrayOr(raw, "entities")|
  {
    var subs := ArrayOr(raw, "entities");
    var properties := Get(raw, "properties");
    Entity(
      rel := ArrayField(raw, "rel"),
      title := TruthyString(raw, "title"),
      mediaType := TruthyString(raw, "type"),
      properties := if properties.Some? && Truthy(properties.value) then properties else None,
      classes := ArrayField(raw, "class"),
      actions := if ArrayField(raw, "actions").Some? then Some(actions) else None,
      links := if ArrayField(raw, "links").Some? then Some(links) else None,
      entities := if ArrayField(raw, "entities").Some? then Some(children) else None,
      actionsByName := NameIndex(actions),
      linksByRel := IndexOf(LinkEntries(links)),
      entitiesByRel := IndexOf(RelEntries(subs, children)),
      entitiesByClass := IndexOf(ClassEntries(subs, children)))
  }

  // ---------------------------------------------------------------------
  // The constructor as it runs

  /** The constructor: an entity built earlier is returned as it is;
      a raw record is built. */
  method Construct(input: Input) returns (r: Result<Entity, Error>)
    requires input.Raw? ==> !input.json.JStr?
    ensures input.Built? ==> r == Success(input.entity)
    ensures input.Raw? ==> r == Build(input.json)
  {
    if input.Built? {
      return Success(input.entity);
    }
    r := ConstructRecord(input.json);
  }

  /** Files `x` under each of `tags` in turn, creating a bucket the first
      time a tag is seen. */
  method FileAll<T>(idx: map<string, seq<T>>, tags: seq<string>, x: T) returns (out: map<string, seq<T>>)
    ensures out == FileUnder(idx, tags, x)
  {
    out := idx;
    var k := 0;
    while k < |tags|
      invariant 0 <= k <= |tags|
      invariant out == FileUnder(idx, tags[..k], x)
    {
      assert tags[..k + 1][..k] == tags[..k];
      var tag := tags[k];
      out := out[tag := (if tag in out then out[tag] else []) + [x]];
      k := k + 1;
    }
    assert tags[..k] == tags;
  }

  /** The walk over the action records: each is wrapped, appended to the
      list and stored in the name table under its key. */
  method CollectActions(raws: seq<Json>) returns (r: Result<seq<Action>, Error>, byName: map<string, Action>)
    ensures r == BuildActions(raws)
    ensures r.Success? ==> byName == NameIndex(r.value)
  {
    var actions: seq<Action> := [];
    byName := map[];
    var i := 0;
    while i < |raws|
      invariant 0 <= i <= |raws|
      invariant |actions| == i && forall k :: 0 <= k < i ==> actions[k] == Action(raws[k]) && !raws[k].JNull?
      invariant byName == NameIndex(actions)
    {
      if raws[i].JNull? {
        assert BuildActions(raws).Failure?;
        return Failure(TypeError), byName;
      }
      var action := Action(raws[i]);
      assert (actions + [action])[..i] == actions;
      actions := actions + [action];
      byName := byName[action.Key() := action];
      i := i + 1;
    }
    assert BuildActions(raws).Success?;
    assert BuildActions(raws).value == actions;
    r := Success(actions);
  }

  /** The walk over the link records: each is wrapped, appended to the list
      and filed under every key of its record's `rel`. */
  method CollectLinks(raws: seq<Json>) returns (r: Result<seq<Link>, Error>, byRel: map<string, seq<Link>>)
    ensures r == BuildLinks(raws)
    ensures r.Success? ==> byRel == IndexOf(LinkEntries(r.value))
  {
    var links: seq<Link> := [];
    byRel := map[];
    var i := 0;
    while i < |raws|
      invariant 0 <= i <= |raws|
      invariant |links| == i && forall k :: 0 <= k < i ==> links[k] == Link(raws[k]) && ArrayField(raws[k], "rel").Some?
      invariant byRel == IndexOf(LinkEntries(links))
    {
      var link := Link(raws[i]);
      var rels := ArrayField(raws[i], "rel");
      if rels.None? {
        assert BuildLinks(raws).Failure?;
        return Failure(TypeError), byRel;
      }
      LinkEntriesAppend(links, link);
      byRel := FileAll(byRel, Keys(rels.value), link);
      links := links + [link];
      i := i + 1;
    }
    assert BuildLinks(raws).Success?;
    assert BuildLinks(raws).value == links;
    r := Success(links);
  }

  /** `done` followed by the items of `rest`, or the failure of `rest`. */
  function Prepend<T>(done: seq<T>, rest: Result<seq<T>, Error>): Result<seq<T>, Error>
  {
    if rest.Failure? then rest else Success(done + rest.value)
  }

  /** One step of the walk: the sub-entity at `i` either fails, and the
      whole list fails with it, or joins the ones before it. */
  lemma PrependStep(raws: seq<Json>, i: nat, children: seq<Child>, built: Result<Child, Error>)
    requires i < |raws| && built == BuildChild(raws[i])
    ensures built.Failure? ==> Prepend(children, BuildChildren(raws[i..])) == Failure(built.error)
    ensures built.Success? ==>
              Prepend(children, BuildChildren(raws[i..])) == Prepend(children + [built.value], BuildChildren(raws[i + 1..]))
  {
    assert raws[i..][0] == raws[i] && raws[i..][1..] == raws[i + 1..];
    var rest := BuildChildren(raws[i + 1..]);
    if built.Success? && rest.Success? {
      assert children + ([built.value] + rest.value) == (children + [built.value]) + rest.value;
    }
  }

  /** One sub-entity record: the `rel` check, then a link stub or a
      recursive construction. */
  method ConstructChild(sub: Json) returns (r: Result<Child, Error>)
    ensures r == BuildChild(sub)
    ensures r.Success? ==> ArrayField(sub, "rel").Some?
    decreases sub, 3
  {
    if sub.JNull? {
      return Failure(TypeError);
    }
    if ArrayField(sub, "rel").None? {
      return Failure(SubEntityRelError);
    }
    if HasStringHref(sub) {
      return Success(LinkChild(Link(sub)));
    }
    var built := ConstructRecord(sub);
    if built.Failure? {
      return Failure(built.error);
    }
    r := Success(EntityChild(built.value));
  }

  /** Appends one built sub-entity, the one of record `raws[i]`, to the list
      and files it under every key of its record's `rel` and, when its
      `class` is an array, every key of its `class`. */
  method AddChild(raws: seq<Json>, i: nat, children: seq<Child>, byRel: map<string, seq<Child>>,
                  byClass: map<string, seq<Child>>, child: Child)
    returns (children': seq<Child>, rel': map<string, seq<Child>>, class': map<string, seq<Child>>)
    requires i < |raws| && |children| == i && ArrayField(raws[i], "rel").Some?
    requires byRel == IndexOf(RelEntries(raws[..i], children))
    requires byClass == IndexOf(ClassEntries(raws[..i], children))
    ensures children' == children + [child]
    ensures rel' == IndexOf(RelEntries(raws[..i + 1], children'))
    ensures class' == IndexOf(ClassEntries(raws[..i + 1], children'))
  {
    ChildTablesStep(raws, i, children, child);
    var rels := ArrayField(raws[i], "rel");
    rel' := FileAll(byRel, Keys(rels.value), child);
    class' := byClass;
    var classes := ArrayField(raws[i], "class");
    if classes.Some? {
      class' := FileAll(byClass, Keys(classes.value), child);
    }
    children' := children + [child];
  }

  /** The walk over the embedded sub-entity records: each is checked,
      turned into a link stub or built recursively, appended to the list and
      filed into the relation and class tables. */
  method CollectChildren(raws: seq<Json>)
    returns (r: Result<seq<Child>, Error>, byRel: map<string, seq<Child>>, byClass: map<string, seq<Child>>)
    ensures r == BuildChildren(raws)
    ensures r.Success? ==> byRel == IndexOf(RelEntries(raws, r.value))
    ensures r.Success? ==> byClass == IndexOf(ClassEntries(raws, r.value))
    decreases raws, 1
  {
    var children: seq<Child> := [];
    byRel, byClass := map[], map[];
    var i := 0;
    assert raws[i..] == raws;
    assert BuildChildren(raws).Success? ==> children + BuildChildren(raws).value == BuildChildren(raws).value;
    while i < |raws|
      invariant 0 <= i <= |raws| && |children| == i
      invariant BuildChildren(raws) == Prepend(children, BuildChildren(raws[i..]))
      invariant byRel == IndexOf(RelEntries(raws[..i], children))
      invariant byClass == IndexOf(ClassEntries(raws[..i], children))
    {
      var built := ConstructChild(raws[i]);
      PrependStep(raws, i, children, built);
      if built.Failure? {
        return Failure(built.error), byRel, byClass;
      }
      children, byRel, byClass := AddChild(raws, i, children, byRel, byClass, built.value);
      i := i + 1;
    }
    assert raws[..i] == raws && raws[i..] == [];
    assert children + [] == children;
    r := Success(children);
  }

  /** The constructor's pass over a raw record: check the field shapes,
      copy the truthy scalar fields, then walk the actions, the links and
      the sub-entities. */
  method ConstructRecord(raw: Json) returns (r: Result<Entity, Error>)
    requires !raw.JStr?
    ensures r == Build(raw)
    decreases raw, 2
  {
    if raw.JNull? {
      return Failure(TypeError);
    }
    var misfit := FirstMisfit(raw, CheckedFields);
    if misfit.Some? {
      return Failure(ShapeError(misfit.value));
    }

    var builtActions, actionsByName := CollectActions(ArrayOr(raw, "actions"));
    if builtActions.Failure? {
      return Failure(builtActions.error);
    }
    var actions := builtActions.value;

    var builtLinks, linksByRel := CollectLinks(ArrayOr(raw, "links"));
    if builtLinks.Failure? {
      return Failure(builtLinks.error);
    }
    var links := builtLinks.value;

    var rawChildren := ArrayField(raw, "entities");
    var children: seq<Child> := [];
    var entitiesByRel: map<string, seq<Child>> := map[];
    var entitiesByClass: map<string, seq<Child>> := map[];
    if rawChildren.Some? {
      var built;
      built, entitiesByRel, entitiesByClass := CollectChildren(rawChildren.value);
      if built.Failure? {
        return Failure(built.error);
      }
      children := built.value;
    }

    var properties := Get(raw, "properties");
    r := Success(Entity(
      rel := ArrayField(raw, "rel"),
      title := TruthyString(raw, "title"),
      mediaType := TruthyString(raw, "type"),
      properties := if properties.Some? && Truthy(properties.value) then properties else None,
      classes := ArrayField(raw, "class"),
      actions := if ArrayField(raw, "actions").Some? then Some(actions) else None,
      links := if ArrayField(raw, "links").Some? then Some(links) else None,
      entities := if rawChildren.Some? then Some(children) else None,
      actionsByName := actionsByName,
      linksByRel := linksByRel,
      entitiesByRel := entitiesByRel,
      entitiesByClass := entitiesByClass));
  }

  // ---------------------------------------------------------------------
  // Query accessors

  /** `_getFirstOrUndefined`: the first item of the bucket of `key`, or
      `None` when there is no bucket or it is empty. The bucket itself,
      `_getSetOrEmpty`, is `Lookup`. */
  function FirstOrUndefined<T>(idx: map<string, seq<T>>, key: string): (r: Option<T>)
    ensures r == if Lookup(idx, key) == [] then None else Some(Lookup(idx, key)[0])
  {
    if key in idx && idx[key] != [] then Some(idx[key][0]) else None
  }

  predicate HasAction(e: Entity, name: string)
  {
    name in e.actionsByName
  }

  function GetAction(e: Entity, name: string): Option<Action>
  {
    if name in e.actionsByName then Some(e.actionsByName[name]) else None
  }

  /** Whether `class` is an array holding the string `cls` (strict equality). */
  predicate HasClass(e: Entity, cls: string)
  {
    e.classes.Some? && JStr(cls) in e.classes.value
  }

  predicate HasEntity(e: Entity, rel: string)
  {
    rel in e.entitiesByRel
  }

  predicate HasLink(e: Entity, rel: string)
  {
    rel in e.linksByRel
  }

  /** Asking about a property of an entity that has no properties block
      throws in the source; here the caller must not ask. */
  predicate HasProperty(e: Entity, name: string)
    requires e.properties.Some? && !e.properties.value.JNull?
  {
    HasOwnProperty(e.properties.value, name)
  }

  function GetLink(e: Entity, rel: string): Option<Link>
  {
    FirstOrUndefined(e.linksByRel, rel)
  }

  function GetLinks(e: Entity, rel: string): seq<Link>
  {
    Lookup(e.linksByRel, rel)
  }

  function GetSubEntity(e: Entity, rel: string): Option<Child>
  {
    FirstOrUndefined(e.entitiesByRel, rel)
  }

  function GetSubEntities(e: Entity, rel: string): seq<Child>
  {
    Lookup(e.entitiesByRel, rel)
  }

  function GetSubEntityByClass(e: Entity, cls: string): Option<Child>
  {
    FirstOrUndefined(e.entitiesByClass, cls)
  }

  function GetSubEntitiesByClass(e: Entity, cls: string): seq<Child>
  {
    Lookup(e.entitiesByClass, cls)
  }
}
