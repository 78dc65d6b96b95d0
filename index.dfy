/**
  The multi-valued lookup tables an Entity keeps: relation -> links,
  relation -> sub-entities and class -> sub-entities. Each table maps a key
  to a "bucket", the list of items filed under it.

  `IndexOf` is the table the builder produces by walking the items in order
  and appending each one to the bucket of each of its tags, creating the
  bucket on first use. `Bucket` is the reference meaning of one bucket: the
  ordered filter of the items by tag. `IndexOfBuckets` shows the two agree.
*/
module Index {

  /** An item together with the tags it is filed under. */
  datatype Entry<T> = Entry(tags: seq<string>, item: T)

  /** The bucket of `key`, or the empty list when there is none: what the
      accessors' `_getSetOrEmpty` answers. */
  function Lookup<T>(idx: map<string, seq<T>>, key: string): seq<T>
  {
    if key in idx then idx[key] else []
  }

  /** Appends `x` to the bucket of `key`, creating the bucket on first use. */
  function Push<T>(idx: map<string, seq<T>>, key: string, x: T): map<string, seq<T>>
  {
    idx[key := Lookup(idx, key) + [x]]
  }

  /** Files `x` under each of `tags`, in order. */
  function FileUnder<T>(idx: map<string, seq<T>>, tags: seq<string>, x: T): map<string, seq<T>>
  {
    if tags == [] then idx
    else Push(FileUnder(idx, tags[..|tags| - 1], x), tags[|tags| - 1], x)
  }

  /** The table produced by filing every entry, in order, into an empty table. */
  function IndexOf<T>(entries: seq<Entry<T>>): map<string, seq<T>>
  {
    if entries == [] then map[]
    else
      var last := entries[|entries| - 1];
      FileUnder(IndexOf(entries[..|entries| - 1]), last.tags, last.item)
  }

  /** Filing one more entry into the table of the ones before it. */
  lemma IndexOfSnoc<T>(entries: seq<Entry<T>>, e: Entry<T>)
    ensures IndexOf(entries + [e]) == FileUnder(IndexOf(entries), e.tags, e.item)
  {
    assert (entries + [e])[..|entries|] == entries;
  }

  /** `n` copies of `x`. */
  function Repeat<T>(x: T, n: nat): seq<T>
  {
    seq(n, _ => x)
  }

  /** Reference meaning of a bucket: the items whose tags contain `key`, in
      the order of `entries`, each once per occurrence of `key` among its
      tags. */
  function Bucket<T>(entries: seq<Entry<T>>, key: string): seq<T>
  {
    if entries == [] then []
    else Repeat(entries[0].item, multiset(entries[0].tags)[key]) + Bucket(entries[1..], key)
  }

  /** Every element of `Repeat(x, n)` is `x`, and there are `n` of them. */
  lemma RepeatFacts<T>(x: T, n: nat, y: T)
    ensures |Repeat(x, n)| == n
    ensures y in Repeat(x, n) <==> n > 0 && y == x
  {
    if n > 0 {
      assert Repeat(x, n)[0] == x;
    }
  }

  /** One more copy at the end. */
  lemma RepeatSnoc<T>(x: T, n: nat)
    ensures Repeat(x, n) + [x] == Repeat(x, n + 1)
  {
    assert forall k :: 0 <= k < n + 1 ==> (Repeat(x, n) + [x])[k] == x;
  }

  /** Counting a key among `init + [t]`. */
  lemma CountSnoc(init: seq<string>, t: string, key: string)
    ensures multiset(init + [t])[key] == multiset(init)[key] + (if key == t then 1 else 0)
  {
    assert multiset(init + [t]) == multiset(init) + multiset{t};
  }

  /** Filing `x` under `tags` appends one copy of `x` to the bucket of each
      tag per occurrence. */
  lemma {:induction false} FileUnderLookup<T>(idx: map<string, seq<T>>, tags: seq<string>, x: T, key: string)
    ensures Lookup(FileUnder(idx, tags, x), key) == Lookup(idx, key) + Repeat(x, multiset(tags)[key])
  {
    if tags == [] {
      assert Repeat(x, 0) == [];
    } else {
      var init, t := tags[..|tags| - 1], tags[|tags| - 1];
      assert tags == init + [t];
      FileUnderLookup(idx, init, x, key);
      CountSnoc(init, t, key);
      if key == t {
        var m := multiset(init)[key];
        RepeatSnoc(x, m);
        assert Lookup(idx, key) + Repeat(x, m) + [x] == Lookup(idx, key) + (Repeat(x, m) + [x]);
      }
    }
  }

  /** Filing `x` under `tags` creates exactly the missing buckets. */
  lemma {:induction false} FileUnderKeys<T>(idx: map<string, seq<T>>, tags: seq<string>, x: T, key: string)
    ensures key in FileUnder(idx, tags, x) <==> key in idx || key in tags
  {
    if tags != [] {
      var init, t := tags[..|tags| - 1], tags[|tags| - 1];
      assert tags == init + [t];
      assert key in tags <==> key in init || key == t;
      FileUnderKeys(idx, init, x, key);
    }
  }

  /** Bucketing distributes over concatenation: document order is kept. */
  lemma {:induction false} BucketAppend<T>(a: seq<Entry<T>>, b: seq<Entry<T>>, key: string)
    ensures Bucket(a + b, key) == Bucket(a, key) + Bucket(b, key)
  {
    if a == [] {
      assert a + b == b;
    } else {
      assert (a + b)[0] == a[0];
      assert (a + b)[1..] == a[1..] + b;
      BucketAppend(a[1..], b, key);
    }
  }

  /** The bucket of a single entry. */
  lemma BucketSingle<T>(e: Entry<T>, key: string)
    ensures Bucket([e], key) == Repeat(e.item, multiset(e.tags)[key])
  {
    assert [e][1..] == [];
    assert Repeat(e.item, multiset(e.tags)[key]) + [] == Repeat(e.item, multiset(e.tags)[key]);
  }

  /** The table built by the incremental walk holds, under every key,
      exactly the reference bucket. */
  lemma {:induction false} IndexOfBuckets<T>(entries: seq<Entry<T>>, key: string)
    ensures Lookup(IndexOf(entries), key) == Bucket(entries, key)
  {
    if entries != [] {
      var init, last := entries[..|entries| - 1], entries[|entries| - 1];
      assert entries == init + [last];
      assert IndexOf(entries) == FileUnder(IndexOf(init), last.tags, last.item);
      IndexOfBuckets(init, key);
      FileUnderLookup(IndexOf(init), last.tags, last.item, key);
      BucketAppend(init, [last], key);
      BucketSingle(last, key);
    }
  }

  /** The walk creates a bucket for a key exactly when some entry is tagged
      with it. */
  lemma {:induction false} IndexOfKeys<T>(entries: seq<Entry<T>>, key: string)
    ensures key in IndexOf(entries) <==> exists i :: 0 <= i < |entries| && key in entries[i].tags
  {
    if entries != [] {
      var init, last := entries[..|entries| - 1], entries[|entries| - 1];
      IndexOfKeys(init, key);
      FileUnderKeys(IndexOf(init), last.tags, last.item, key);
      if key in IndexOf(init) {
        var i :| 0 <= i < |init| && key in init[i].tags;
        assert entries[i] == init[i];
      }
      if exists i :: 0 <= i < |entries| && key in entries[i].tags {
        var i :| 0 <= i < |entries| && key in entries[i].tags;
        if i < |init| {
          assert init[i] == entries[i];
        }
      }
    }
  }

  /** An item is in a bucket exactly when some entry carrying it is tagged
      with the bucket's key. */
  lemma {:induction false} BucketMembership<T>(entries: seq<Entry<T>>, key: string, x: T)
    ensures x in Bucket(entries, key) <==>
            exists i :: 0 <= i < |entries| && entries[i].item == x && key in entries[i].tags
  {
    if entries != [] {
      var rest := entries[1..];
      BucketMembership(rest, key, x);
      RepeatFacts(entries[0].item, multiset(entries[0].tags)[key], x);
      if exists i :: 1 <= i < |entries| && entries[i].item == x && key in entries[i].tags {
        var i :| 1 <= i < |entries| && entries[i].item == x && key in entries[i].tags;
        assert rest[i - 1] == entries[i];
      }
      if exists i :: 0 <= i < |rest| && rest[i].item == x && key in rest[i].tags {
        var i :| 0 <= i < |rest| && rest[i].item == x && key in rest[i].tags;
        assert entries[i + 1] == rest[i];
      }
    }
  }

  /** A bucket is empty exactly when no entry is tagged with its key. */
  lemma {:induction false} BucketEmpty<T>(entries: seq<Entry<T>>, key: string)
    ensures Bucket(entries, key) == [] <==> forall i :: 0 <= i < |entries| ==> key !in entries[i].tags
  {
    if entries != [] {
      var rest := entries[1..];
      BucketEmpty(rest, key);
      RepeatFacts(entries[0].item, multiset(entries[0].tags)[key], entries[0].item);
      if forall i :: 0 <= i < |entries| ==> key !in entries[i].tags {
        forall i | 0 <= i < |rest|
          ensures key !in rest[i].tags
        {
          assert rest[i] == entries[i + 1];
        }
      }
      if Bucket(entries, key) == [] {
        forall i | 0 <= i < |entries|
          ensures key !in entries[i].tags
        {
          if i > 0 {
            assert entries[i] == rest[i - 1];
          }
        }
      }
    }
  }

  /** The first item of a bucket comes from the first entry tagged with its
      key. */
  lemma {:induction false} BucketFirst<T>(entries: seq<Entry<T>>, key: string, i: nat)
    requires i < |entries| && key in entries[i].tags
    requires forall j :: 0 <= j < i ==> key !in entries[j].tags
    ensures Bucket(entries, key) != [] && Bucket(entries, key)[0] == entries[i].item
  {
    var n := multiset(entries[0].tags)[key];
    RepeatFacts(entries[0].item, n, entries[0].item);
    if i == 0 {
      assert Repeat(entries[0].item, n)[0] == entries[0].item;
    } else {
      assert n == 0;
      forall j | 0 <= j < i - 1
        ensures key !in entries[1..][j].tags
      {
        assert entries[1..][j] == entries[j + 1];
      }
      BucketFirst(entries[1..], key, i - 1);
    }
  }

  /** The index of the first entry tagged with `key`, when there is one. */
  lemma FirstTagged<T>(entries: seq<Entry<T>>, key: string) returns (i: nat)
    requires exists k :: 0 <= k < |entries| && key in entries[k].tags
    ensures i < |entries| && key in entries[i].tags
    ensures forall j :: 0 <= j < i ==> key !in entries[j].tags
  {
    i := 0;
    while key !in entries[i].tags
      invariant i < |entries|
      invariant forall j :: 0 <= j < i ==> key !in entries[j].tags
      invariant exists k :: i <= k < |entries| && key in entries[k].tags
      decreases |entries| - i
    {
      i := i + 1;
    }
  }

  /** A non-empty bucket starts with the item of the first entry tagged
      with its key. */
  lemma BucketHead<T>(entries: seq<Entry<T>>, key: string)
    requires Bucket(entries, key) != []
    ensures exists i :: 0 <= i < |entries| && key in entries[i].tags && Bucket(entries, key)[0] == entries[i].item
                        && forall j :: 0 <= j < i ==> key !in entries[j].tags
  {
    BucketEmpty(entries, key);
    var i := FirstTagged(entries, key);
    BucketFirst(entries, key, i);
  }

  /** Every bucket the walk creates holds at least one item. */
  lemma BucketsNonEmpty<T>(entries: seq<Entry<T>>, key: string)
    requires key in IndexOf(entries)
    ensures IndexOf(entries)[key] != []
  {
    IndexOfBuckets(entries, key);
    IndexOfKeys(entries, key);
    BucketEmpty(entries, key);
  }
}
