/**
 * Grouping of action records by action type into an insertion-ordered
 * dictionary (an association list here), and the flattening of those groups
 * back into one sequence of records, group after group.
 */
module Grouping {
  import opened ActionTable

  /** One value filed under an action type: its date and its value. */
  datatype Entry = Entry(date: string, value: real)

  /** One dictionary item: an action type and the entries filed under it. */
  datatype Group = Group(key: string, entries: seq<Entry>)

  function EntryOf(c: Record): Entry {
    Entry(c.date, c.value)
  }

  /** The dictionary's keys, in insertion order. */
  function Keys(gs: seq<Group>): (ks: seq<string>)
    ensures |ks| == |gs|
    ensures forall i :: 0 <= i < |gs| ==> ks[i] == gs[i].key
  {
    if |gs| == 0 then [] else [gs[0].key] + Keys(gs[1..])
  }

  /** The list filed under key k; the empty list when k is not a key. */
  function Lookup(gs: seq<Group>, k: string): seq<Entry>
  {
    if |gs| == 0 then []
    else if gs[0].key == k then gs[0].entries
    else Lookup(gs[1..], k)
  }

  /** Total number of entries over all groups. */
  function TotalSize(gs: seq<Group>): nat
  {
    if |gs| == 0 then 0 else |gs[0].entries| + TotalSize(gs[1..])
  }

  /** Every group holds at least one entry. */
  predicate AllNonEmpty(gs: seq<Group>) {
    forall i :: 0 <= i < |gs| ==> |gs[i].entries| > 0
  }

  /** The position of the first occurrence of x in s, or |s| when x does not occur. */
  function FirstIndex<T(==)>(s: seq<T>, x: T): (r: nat)
    ensures r <= |s|
    ensures r < |s| <==> x in s
    ensures r < |s| ==> s[r] == x
    ensures forall i :: 0 <= i < r ==> s[i] != x
  {
    if |s| == 0 then 0
    else if s[0] == x then 0
    else 1 + FirstIndex(s[1..], x)
  }

  /** Keys ks list the distinct elements of kinds, ordered by first occurrence. */
  predicate FirstAppearanceOrder(ks: seq<string>, kinds: seq<string>) {
    && Distinct(ks)
    && (forall k :: k in ks ==> k in kinds)
    && (forall k :: k in kinds ==> k in ks)
    && (forall i, j :: 0 <= i < j < |ks| ==> FirstIndex(kinds, ks[i]) < FirstIndex(kinds, ks[j]))
  }

  /** dict.setdefault(c.actionType, []).append({date, value}): append to the
      key's list, creating the key at the end of the dictionary when it is new. */
  function SetDefaultAppend(gs: seq<Group>, c: Record): seq<Group>
  {
    if |gs| == 0 then [Group(c.actionType, [EntryOf(c)])]
    else if gs[0].key == c.actionType then [Group(gs[0].key, gs[0].entries + [EntryOf(c)])] + gs[1..]
    else [gs[0]] + SetDefaultAppend(gs[1..], c)
  }

  /** The dictionary built by filing the records one after the other. */
  function GroupAll(records: seq<Record>): seq<Group>
    decreases |records|
  {
    if |records| == 0 then []
    else
      var n := |records| - 1;
      SetDefaultAppend(GroupAll(records[..n]), records[n])
  }

  /** The action types of the records, in order. */
  function Kinds(records: seq<Record>): (ks: seq<string>)
    ensures |ks| == |records|
    ensures forall i :: 0 <= i < |records| ==> ks[i] == records[i].actionType
  {
    seq(|records|, i requires 0 <= i < |records| => records[i].actionType)
  }

  /** The entries of the records of action type k, in order (a filter). */
  function Select(records: seq<Record>, k: string): seq<Entry>
    decreases |records|
  {
    if |records| == 0 then []
    else
      var n := |records| - 1;
      Select(records[..n], k) + (if records[n].actionType == k then [EntryOf(records[n])] else [])
  }

  /** The records of one group, each tagged with the group's key. */
  function Tagged(g: Group): (r: seq<Record>)
    ensures |r| == |g.entries|
    ensures forall i :: 0 <= i < |r| ==>
      r[i] == Record(g.key, g.entries[i].date, g.entries[i].value)
  {
    seq(|g.entries|, i requires 0 <= i < |g.entries| =>
      Record(g.key, g.entries[i].date, g.entries[i].value))
  }

  /** The groups concatenated in key order. */
  function Flatten(gs: seq<Group>): seq<Record>
  {
    if |gs| == 0 then [] else Tagged(gs[0]) + Flatten(gs[1..])
  }

  // ---- SetDefaultAppend ----

  /** An existing key keeps the key order; a new key goes at the end. */
  lemma {:induction false} SetDefaultAppendKeys(gs: seq<Group>, c: Record)
    ensures Keys(SetDefaultAppend(gs, c))
         == if c.actionType in Keys(gs) then Keys(gs) else Keys(gs) + [c.actionType]
    decreases |gs|
  {
    if |gs| > 0 && gs[0].key != c.actionType {
      SetDefaultAppendKeys(gs[1..], c);
      assert SetDefaultAppend(gs, c)[1..] == SetDefaultAppend(gs[1..], c);
    }
  }

  /** Filing adds exactly one entry. */
  lemma {:induction false} SetDefaultAppendSize(gs: seq<Group>, c: Record)
    ensures TotalSize(SetDefaultAppend(gs, c)) == TotalSize(gs) + 1
    decreases |gs|
  {
    if |gs| > 0 && gs[0].key != c.actionType {
      SetDefaultAppendSize(gs[1..], c);
      assert SetDefaultAppend(gs, c)[1..] == SetDefaultAppend(gs[1..], c);
    }
  }

  /** Appending to key c.actionType adds one entry at the end of that key's
      list and leaves every other key's list as it was. */
  lemma {:induction false} SetDefaultAppendLookup(gs: seq<Group>, c: Record, k: string)
    ensures Lookup(SetDefaultAppend(gs, c), k)
         == Lookup(gs, k) + (if k == c.actionType then [EntryOf(c)] else [])
    decreases |gs|
  {
    if |gs| > 0 && gs[0].key != c.actionType {
      SetDefaultAppendLookup(gs[1..], c, k);
      assert SetDefaultAppend(gs, c)[1..] == SetDefaultAppend(gs[1..], c);
    }
  }

  lemma {:induction false} SetDefaultAppendNonEmpty(gs: seq<Group>, c: Record)
    requires AllNonEmpty(gs)
    ensures AllNonEmpty(SetDefaultAppend(gs, c))
    decreases |gs|
  {
    if |gs| > 0 && gs[0].key != c.actionType {
      SetDefaultAppendNonEmpty(gs[1..], c);
      var r := SetDefaultAppend(gs, c);
      assert r[1..] == SetDefaultAppend(gs[1..], c);
      forall i | 0 <= i < |r| ensures |r[i].entries| > 0 {
        if i > 0 { assert r[i] == r[1..][i - 1]; }
      }
    }
  }

  /** Tagging a group whose list gained one entry at its end. */
  lemma TaggedSnoc(g: Group, c: Record)
    requires c.actionType == g.key
    ensures Tagged(Group(g.key, g.entries + [EntryOf(c)])) == Tagged(g) + [c]
  {
  }

  /** Filing a record adds exactly that record to the flattened dictionary. */
  lemma {:induction false} SetDefaultAppendFlatten(gs: seq<Group>, c: Record)
    ensures multiset(Flatten(SetDefaultAppend(gs, c))) == multiset(Flatten(gs)) + multiset{c}
    decreases |gs|
  {
    var r := SetDefaultAppend(gs, c);
    if |gs| == 0 {
      assert Flatten(r) == Tagged(r[0]) + Flatten([]);
    } else {
      var rest := gs[1..];
      assert Flatten(gs) == Tagged(gs[0]) + Flatten(rest);
      if gs[0].key == c.actionType {
        TaggedSnoc(gs[0], c);
        assert r[1..] == rest;
        assert Flatten(r) == Tagged(gs[0]) + [c] + Flatten(rest);
      } else {
        assert r[1..] == SetDefaultAppend(rest, c);
        SetDefaultAppendFlatten(rest, c);
        assert Flatten(r) == Tagged(gs[0]) + Flatten(SetDefaultAppend(rest, c));
      }
    }
  }

  // ---- GroupAll ----

  lemma GroupAllSnoc(records: seq<Record>, c: Record)
    ensures GroupAll(records + [c]) == SetDefaultAppend(GroupAll(records), c)
  {
    assert (records + [c])[..|records|] == records;
  }

  /** Filing one more record after done + rest. */
  lemma GroupAllAppend(done: seq<Record>, rest: seq<Record>, c: Record)
    ensures GroupAll(done + (rest + [c])) == SetDefaultAppend(GroupAll(done + rest), c)
  {
    assert done + (rest + [c]) == (done + rest) + [c];
    GroupAllSnoc(done + rest, c);
  }

  /** One entry per record: the dictionary's total size is the number of records. */
  lemma {:induction false} GroupAllSize(records: seq<Record>)
    ensures TotalSize(GroupAll(records)) == |records|
    decreases |records|
  {
    if |records| > 0 {
      var n := |records| - 1;
      GroupAllSize(records[..n]);
      SetDefaultAppendSize(GroupAll(records[..n]), records[n]);
    }
  }

  /** Each key's list holds exactly the records of that action type, in the order
      the records came; a type that never occurs has no list. */
  lemma {:induction false} GroupAllLookup(records: seq<Record>, k: string)
    ensures Lookup(GroupAll(records), k) == Select(records, k)
    decreases |records|
  {
    if |records| > 0 {
      var n := |records| - 1;
      GroupAllLookup(records[..n], k);
      SetDefaultAppendLookup(GroupAll(records[..n]), records[n], k);
    }
  }

  /** A key is created only together with its first entry: no list is empty. */
  lemma {:induction false} GroupAllNonEmpty(records: seq<Record>)
    ensures AllNonEmpty(GroupAll(records))
    decreases |records|
  {
    if |records| > 0 {
      var n := |records| - 1;
      GroupAllNonEmpty(records[..n]);
      SetDefaultAppendNonEmpty(GroupAll(records[..n]), records[n]);
    }
  }

  lemma {:induction false} FirstIndexSnoc<T>(s: seq<T>, y: T, x: T)
    ensures x in s ==> FirstIndex(s + [y], x) == FirstIndex(s, x)
    ensures x !in s && x == y ==> FirstIndex(s + [y], x) == |s|
    decreases |s|
  {
    if |s| > 0 && s[0] != x {
      assert (s + [y])[1..] == s[1..] + [y];
      FirstIndexSnoc(s[1..], y, x);
    }
  }

  /** Seeing one more action type x keeps the keys in first-appearance order,
      provided x becomes a new last key exactly when it was not seen before. */
  lemma FirstAppearanceOrderSnoc(ks: seq<string>, kinds: seq<string>, x: string)
    requires FirstAppearanceOrder(ks, kinds)
    ensures FirstAppearanceOrder(if x in ks then ks else ks + [x], kinds + [x])
  {
    var kinds' := kinds + [x];
    if x in ks {
      forall i, j | 0 <= i < j < |ks|
        ensures FirstIndex(kinds', ks[i]) < FirstIndex(kinds', ks[j])
      {
        FirstIndexSnoc(kinds, x, ks[i]);
        FirstIndexSnoc(kinds, x, ks[j]);
      }
    } else {
      var ks' := ks + [x];
      FirstIndexSnoc(kinds, x, x);
      forall i, j | 0 <= i < j < |ks'|
        ensures FirstIndex(kinds', ks'[i]) < FirstIndex(kinds', ks'[j])
      {
        assert ks'[i] == ks[i];
        FirstIndexSnoc(kinds, x, ks[i]);
        if j < |ks| {
          assert ks'[j] == ks[j];
          FirstIndexSnoc(kinds, x, ks[j]);
        }
      }
      assert Distinct(ks');
    }
  }

  /** The keys are the distinct action types of the records, in the order of
      each type's first record (not column order). */
  lemma {:induction false} GroupAllKeys(records: seq<Record>)
    ensures FirstAppearanceOrder(Keys(GroupAll(records)), Kinds(records))
    decreases |records|
  {
    if |records| > 0 {
      var n := |records| - 1;
      var prev, c := records[..n], records[n];
      assert records == prev + [c];
      GroupAllSnoc(prev, c);
      GroupAllKeys(prev);
      SetDefaultAppendKeys(GroupAll(prev), c);
      assert Kinds(records) == Kinds(prev) + [c.actionType];
      FirstAppearanceOrderSnoc(Keys(GroupAll(prev)), Kinds(prev), c.actionType);
    }
  }

  /** The flattened dictionary is a permutation of the records: every record
      comes out exactly as often as it went in. */
  lemma {:induction false} GroupAllPermutation(records: seq<Record>)
    ensures multiset(Flatten(GroupAll(records))) == multiset(records)
    decreases |records|
  {
    if |records| > 0 {
      var n := |records| - 1;
      var prev, c := records[..n], records[n];
      assert records == prev + [c];
      GroupAllPermutation(prev);
      GroupAllSnoc(prev, c);
      SetDefaultAppendFlatten(GroupAll(prev), c);
    }
  }

  /** The dictionary is empty exactly when there are no records. */
  lemma GroupAllEmpty(records: seq<Record>)
    ensures GroupAll(records) == [] <==> records == []
  {
    GroupAllSize(records);
  }

  // ---- Flatten ----

  /** Flattening produces one record per entry. */
  lemma {:induction false} FlattenLength(gs: seq<Group>)
    ensures |Flatten(gs)| == TotalSize(gs)
    decreases |gs|
  {
    if |gs| > 0 {
      FlattenLength(gs[1..]);
    }
  }

  /** Entry j of group i lands at position TotalSize(gs[..i]) + j of the
      flattened sequence, tagged with the group's key: groups come in key
      order, entries in list order. */
  lemma {:induction false} FlattenAt(gs: seq<Group>, i: nat, j: nat)
    requires i < |gs| && j < |gs[i].entries|
    ensures TotalSize(gs[..i]) + j < |Flatten(gs)|
    ensures Flatten(gs)[TotalSize(gs[..i]) + j]
         == Record(gs[i].key, gs[i].entries[j].date, gs[i].entries[j].value)
    decreases i
  {
    var rest := gs[1..];
    var head := Tagged(gs[0]);
    assert Flatten(gs) == head + Flatten(rest);
    FlattenLength(rest);
    if i == 0 {
      assert TotalSize(gs[..0]) == 0;
      assert Flatten(gs)[j] == head[j];
    } else {
      FlattenAt(rest, i - 1, j);
      var before := gs[..i];
      assert before[0] == gs[0] && before[1..] == rest[..i - 1];
      assert TotalSize(before) == |head| + TotalSize(rest[..i - 1]);
      assert rest[i - 1] == gs[i];
    }
  }
}
