# Siren entity builder

A model of the Siren hypermedia entity of `src/Entity.js`. The `Entity`
constructor takes a parsed Siren document and does four things:

- It checks the shape of the optional top-level fields.
- It copies the truthy scalar fields (`rel`, `title`, `type`, `properties`, `class`).
- It wraps every action and link record.
- It walks the embedded sub-entities. A record with a string `href` becomes a
  link stub; any other record is built as an entity, recursively.

Along the way the constructor fills four lookup tables:

- action name → action, where a later duplicate replaces an earlier one;
- link relation → links;
- sub-entity relation → sub-entities;
- sub-entity class → sub-entities.

The query accessors (`hasAction`, `getLink`, `getSubEntitiesByClass`, …) read
those tables.

The project is made of these modules:

- `Wrappers` (`wrappers.dfy`): `Option` and `Result`.
- `Json` (`json.dfy`): parsed JSON values, plus the two pieces of JavaScript
  semantics the builder relies on. The first is property reads. The second is
  the coercion of a value to the string key an object stores it under, as
  `String(v)` does for every value except an object with an own `toString`
  key (see "## Left out").
- `Index` (`index.dfy`): the multi-valued tables.
  - `IndexOf` is the table the builder's loop produces: each item is appended
    to the bucket of each of its tags, and a bucket is created on first use.
  - `Bucket` is an independent reference meaning: the ordered filter of the
    items by tag.
  - `IndexOfBuckets` proves the two agree.
- `SirenEntity` (`entity.dfy`): the data model, `Build`, the constructor and the
  accessors.
  - `Build` is the meaning of the constructor on a parsed record.
  - `ConstructRecord` is the constructor as it runs: while-loops that push onto
    the lists and file each item into the tables as they go. It is proved to
    return exactly `Build`.
  - The accessors are pure functions over the entity.
- `SirenEntityLaws` (`entity_laws.dfy`): what construction and the accessors
  promise.
  - When construction succeeds or fails, and what the lists hold.
  - Each accessor in terms of the entity's own action, link and sub-entity lists.
  - `BuildIsIndexed` shows that every built entity satisfies `Indexed`, the
    hypothesis of the accessor laws.
- `SirenEntityExamples` (`examples_siren.dfy`): two documents worked through the
  model. One is an order with an action, a link and a link stub. The other has
  two links that share a relation.

Failures are values of type `Error`:

- `ShapeError(field)`: one of the shape assertions fails. The field named is the
  first misfit, in the order the source checks them.
- `SubEntityRelError`: an embedded record's `rel` is not an array.
- `TypeError`: JavaScript would throw reading a property of `null` (a `null`
  record, action or sub-entity), or calling `rel.forEach` on a link whose `rel`
  is not an array.

Three behaviours of `src/Entity.js` worth knowing:

- An empty sub-entity `rel` array is accepted.
- `properties` passes its check when it is an object, an array or `null`, since
  all three have `typeof` `'object'`. A `null` block is then dropped as falsy.
- Scalar fields are copied only when truthy, so an empty-string `title` or
  `type` is dropped.

## Model

| member | source | states |
|---|---|---|
| SirenEntity.Construct | src/Entity.js:9-12 | An entity built earlier is returned unchanged; a raw record yields exactly `Build` of it. |
| SirenEntity.ConstructRecord | src/Entity.js:17-120 | The loop-based constructor returns exactly `Build(raw)`, the same entity or the same failure. |
| SirenEntity.FirstMisfit | src/Entity.js:23-30 | No result iff every checked field is absent or of its shape; otherwise it names a misfit field, and every field checked before it fits. |
| SirenEntity.BuildActions | src/Entity.js:54-60 | Succeeds iff no action record is `null`, with one `Action` per record in order; otherwise `TypeError`. |
| SirenEntity.BuildLinks | src/Entity.js:65-80 | Succeeds iff every link record has an array `rel`, with one `Link` per record in order; otherwise `TypeError`. |
| SirenEntity.FileAll | src/Entity.js:71-79 | Filing an item under each tag in turn, creating missing buckets, gives the table `FileUnder` describes. |
| SirenEntity.CollectActions | src/Entity.js:53-61 | The action loop's list equals `BuildActions`; on success its name table is `NameIndex` of that list. |
| SirenEntity.CollectLinks | src/Entity.js:63-81 | The link loop's list equals `BuildLinks`; on success its relation table is `IndexOf` of the links filed under their `rel` keys. |
| SirenEntity.ConstructChild | src/Entity.js:89-96 | One sub-entity step returns `BuildChild`; success implies the record's `rel` is an array. |
| SirenEntity.AddChild | src/Entity.js:97-117 | Appends the child and files it under its record's `rel` keys and, when `class` is an array, its class keys; both tables match the records walked so far. |
| SirenEntity.CollectChildren | src/Entity.js:83-119 | The sub-entity loop's list equals `BuildChildren`; on success its two tables are `IndexOf` of the children filed by the records' `rel` and `class` keys. |
| SirenEntity.FirstOrUndefined | src/Entity.js:170-174 | `None` iff the bucket `_getSetOrEmpty` would copy is absent or empty; otherwise that bucket's first element. |
| Index.FileUnderLookup | src/Entity.js:71-79 | Filing an item under some tags appends one copy of it to a key's bucket per occurrence of the key among the tags, and leaves other buckets as they were. |
| Index.FileUnderKeys | src/Entity.js:71-79 | After filing, a key has a bucket iff it had one before or is among the tags. |
| Index.IndexOfBuckets | src/Entity.js:71-79 | The bucket the loop builds for any key equals the ordered filter `Bucket` of the entries by that key. |
| Index.IndexOfKeys | src/Entity.js:72-77 | The loop creates a bucket for a key iff some entry is tagged with it. |
| Index.BucketAppend | src/Entity.js:78 | Buckets keep document order: the bucket of a concatenation is the concatenation of the buckets. |
| Index.BucketMembership | src/Entity.js:71-79 | An item is in a bucket iff some entry carrying it is tagged with the key. |
| Index.BucketEmpty | src/Entity.js:71-79 | A bucket is empty iff no entry is tagged with its key. |
| Index.BucketFirst | src/Entity.js:170-174 | The first item of a bucket is the item of the first entry tagged with its key. |
| Index.BucketHead | src/Entity.js:170-174 | A non-empty bucket starts with the item of some entry tagged with its key, before which no entry is. |
| Index.BucketsNonEmpty | src/Entity.js:75-78 | Every bucket the loop creates holds at least one item. |
| SirenEntityLaws.BuildOutcome | src/Entity.js:53-119 | Past the shape checks, construction succeeds iff the action, link and sub-entity lists all build, and it then assembles exactly those lists and their tables. |
| SirenEntityLaws.BuildSucceedsIff | src/Entity.js:23-96 | Construction succeeds iff the record is acceptable: no misshapen field, no `null` action, every link and sub-entity `rel` an array, and every embedded entity itself acceptable. |
| SirenEntityLaws.ChildrenSucceedIff | src/Entity.js:88-96 | The sub-entity list builds iff every sub-entity record is acceptable. |
| SirenEntityLaws.ChildrenSucceedEach | src/Entity.js:88-97 | The sub-entity list builds iff each sub-entity builds. |
| SirenEntityLaws.ChildSucceedsIff | src/Entity.js:89-96 | A sub-entity builds iff its `rel` is an array and it is a link stub or an acceptable record. |
| SirenEntityLaws.MisshapenFieldFails | src/Entity.js:23-30 | A record with a misshapen field fails with a shape error that names one of the checked fields. |
| SirenEntityLaws.FirstChildFailure | src/Entity.js:88-96 | The first failing sub-entity's error is the error of the whole list. |
| SirenEntityLaws.NestedFailure | src/Entity.js:88-96 | A failure in the first failing sub-entity, however deep, is the failure of the whole construction. |
| SirenEntityLaws.ChildrenPointwise | src/Entity.js:88-97 | When the list builds, its i-th child is what the i-th record builds. |
| SirenEntityLaws.BuildActionList | src/Entity.js:54-58 | The actions list is present iff the record has `actions`, has the same length, and holds `Action(record)` at each position in order. |
| SirenEntityLaws.BuildLinkList | src/Entity.js:65-69 | The links list is present iff the record has `links`, has the same length, and holds `Link(record)` at each position in order. |
| SirenEntityLaws.BuildChildrenOf | src/Entity.js:86-97 | The entities list is present iff the record has `entities`, and it is the list the sub-entity records build. |
| SirenEntityLaws.ChildKind | src/Entity.js:92-96 | A built sub-entity is a link stub iff its record's `href` is a string; otherwise it is the entity its record builds. |
| SirenEntityLaws.BuildChildList | src/Entity.js:86-97 | Same length and order as the records; each is a link stub on its record iff `href` is a string, otherwise the entity that record builds. |
| SirenEntityLaws.BuildScalars | src/Entity.js:32-51 | A built record is well shaped; `rel` and `class` are copied; `title` and `type` are kept when non-empty strings; `properties` when truthy. |
| SirenEntityLaws.BuildCopiesTruthyFields | src/Entity.js:32-51 | `title`/`type` are present iff the record has them and they are not the empty string; `properties` is present iff the record has a non-null one, and is then that value. |
| SirenEntityLaws.ChildTags | src/Entity.js:99-117 | Built sub-entities carry the `rel` and `class` keys of the records they came from. |
| SirenEntityLaws.BuildIsIndexed | src/Entity.js:53-119 | The four tables of a built entity are exactly the ones its own action, link and sub-entity lists produce. |
| SirenEntityLaws.NameIndexKeys | src/Entity.js:56-60 | The name table has a key iff some action has that key. |
| SirenEntityLaws.NameIndexLast | src/Entity.js:56-60 | The action stored under a name is one of the actions carrying that name. |
| SirenEntityLaws.HasActionIff | src/Entity.js:122-124 | `hasAction(n)` holds iff some action of the entity has name `n`. |
| SirenEntityLaws.GetActionIsLast | src/Entity.js:142-144 | `getAction(n)` is undefined iff no action has name `n`; otherwise it is the last action named `n`. |
| SirenEntityLaws.GetLinksIsFilter | src/Entity.js:150-152 | `getLinks(r)` is the ordered filter of the links by relation `r`, once per occurrence, and empty when none. |
| SirenEntityLaws.GetLinksMembers | src/Entity.js:150-152 | A link is in `getLinks(r)` iff it is one of the entity's links and its `rel` has key `r`. |
| SirenEntityLaws.HasLinkIff | src/Entity.js:134-136 | `hasLink(r)` iff `getLinks(r)` is non-empty iff some link's `rel` has key `r`. |
| SirenEntityLaws.GetLinkNone | src/Entity.js:146-148 | `getLink(r)` is undefined iff no link's `rel` has key `r`. |
| SirenEntityLaws.GetLinkIsFirst | src/Entity.js:146-148 | `getLink(r)` is the first link, in document order, whose `rel` has key `r`. |
| SirenEntityLaws.GetSubEntitiesIsFilter | src/Entity.js:158-160 | `getSubEntities(r)` is the ordered filter of the sub-entities by relation `r`. |
| SirenEntityLaws.HasEntityIff | src/Entity.js:130-132 | `hasEntity(r)` iff `getSubEntities(r)` is non-empty, and `getSubEntity(r)` is its first element or undefined. |
| SirenEntityLaws.GetSubEntitiesByClassIsFilter | src/Entity.js:162-168 | `getSubEntitiesByClass(c)` is the ordered filter of the sub-entities by class `c`, and `getSubEntityByClass(c)` is its first element. |
| SirenEntityLaws.ByClassIsRecordFilter | src/Entity.js:109-117 | On a built entity, the class bucket is the ordered filter of the sub-entities by the `class` arrays of their records. |
| SirenEntityLaws.ByClassMembers | src/Entity.js:109-117 | A sub-entity is listed under class `c` iff its record has a `class` array with key `c`; one without a `class` array is never class-indexed. |
| SirenEntityLaws.HasClassIff | src/Entity.js:126-128 | `hasClass(c)` iff the record's `class` array holds the string `c`. |
| SirenEntityLaws.HasPropertyOfObject | src/Entity.js:138-140 | When `properties` is an object, the built entity has it and `hasProperty(p)` iff that object has key `p`. |
| SirenEntityExamples.OrderBuild | src/Entity.js:9-120 | The order document builds into the entity assembled from its one action, one link and one link stub. |
| SirenEntityExamples.OrderDocumentQueries | src/Entity.js:126-160 | On the order document, `hasClass("order")` holds, `getAction("cancel")` is found, `getLink("self")` points at `/o/1`, and the one "item" sub-entity is a stub pointing at `/o/1/line/1`. |
| SirenEntityExamples.AlternatesBuild | src/Entity.js:63-81 | The two-link document builds into the entity holding both links in order. |
| SirenEntityExamples.AlternatesInOrder | src/Entity.js:146-152 | With two links sharing "alternate", `getLinks` lists both in document order and `getLink` answers the first. |

## Left out

- SirenEntity.Build: JSON text input is not modelled, hence the requirement that the record is not a string. `JSON.parse` is a library call, and the entity is built from an already-parsed value.
- SirenEntity.Construct: inherits that requirement for raw input.
- SirenEntity.ConstructRecord: inherits that requirement for raw input.
- SirenEntity.HasProperty: requires a non-null `properties` block. The source throws when none was set, and the model does not give that case a result.
- The entity is an immutable value, not an object whose fields are assigned in place. The constructor's loops build local lists and tables, then return the assembled value, so object identity and aliasing are not modelled. "An entity built earlier is returned as it is" is value equality.
- The defensive `slice()` copy made by `_getSetOrEmpty` is implicit: sequences are values.
- The `new`-less call idiom and the `this[set]` dispatch by table name are JavaScript plumbing. Each accessor names its table directly.
- `src/Action.js` and `src/Link.js` are not part of this model. Actions and links are total wrappers of their records, so any validation those constructors perform is not modelled. The core reads only the action `name` and the link `rel` and `href`.
- The boolean sets `_linkRels` and `_entityRels` are not kept separately. Their key sets are the key sets of the two relation tables, which `hasLink` and `hasEntity` read.
- The tables are maps from strings, not JavaScript objects, so keys that name `Object.prototype` members are not special here. The source behaves differently on them in these ways, among others:
  - A link or sub-entity whose `rel` holds such a name, or a sub-entity whose `class` array does, fails construction. Examples are `constructor`, `toString`, `valueOf`, `hasOwnProperty` and `__proto__`. The bucket test at src/Entity.js:75, 103 or 112 finds the inherited member, and the `.push` on line 78, 106 or 115 then throws a TypeError. The model files such a record normally.
  - An action named `__proto__` replaces the name table's prototype instead of adding an own key (line 59). `hasAction("__proto__")` then answers false, whereas the model answers true.
  - An action named `hasOwnProperty` becomes an own key of the name table (line 59) and shadows the method, so every later `hasAction` call throws a TypeError (line 123). The model's `HasAction` answers normally.
  - `getAction` on a name such as `toString`, `constructor` or `__proto__` that no action carries returns the inherited member (line 143), not undefined. For these names `GetActionIsLast`'s "undefined exactly when no action has the name" is the model's answer, not the source's.
  - `getLinks`, `getSubEntities` and `getSubEntitiesByClass` on a key such as `constructor` find the inherited function at lines 177-179 and throw on `slice`, while `getLink` and its siblings answer undefined. The model answers with an empty bucket.
  - A `properties` object with its own `hasOwnProperty` key makes `hasProperty` throw (line 139). The model's `HasProperty` answers key membership.
- An object with its own `toString` key, such as `{"toString":1}`, cannot be turned into a key: `String()` skips the non-callable `toString`, gets the object back from `valueOf`, and throws a TypeError. In the source, construction therefore throws when such an object is an action's `name` (src/Entity.js:59), an element of a link's or sub-entity's `rel` (lines 72 and 100) or of a sub-entity's `class` (line 112), or sits inside an array used as one of those keys. `Json.PropertyKey` instead answers `"[object Object]"` for every object, so the model files such records under that key, and `BuildActions`, `BuildLinks` and `BuildSucceedsIff` count them as successes.
- Numbers are carried as the text `String()` gives them. Floating-point parsing and formatting are not modelled.
- `hasProperty` on a `properties` array is defined through `Json.HasOwnProperty`; a string `properties` arises only in an `Entity` value made by hand, since the shape check rejects it. Only the object case has a stated law (`HasPropertyOfObject`).
