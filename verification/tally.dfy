/** A counting record `Record<string, number>` filled by
    `record[k] = (record[k] || 0) + 1`, read back through `Object.entries`.
    Its entries are kept in enumeration order: a new key goes last. */
module Tally {
  import opened Seqs

  /** One `[key, count]` pair of `Object.entries`. */
  datatype Entry = Entry(key: string, count: nat)

  function Keys(t: seq<Entry>): (r: seq<string>)
    ensures |r| == |t|
  {
    seq(|t|, i requires 0 <= i < |t| => t[i].key)
  }

  /** The sum of all counts (`Object.values(record).reduce(+, 0)`). */
  function Total(t: seq<Entry>): nat {
    if t == [] then 0 else t[0].count + Total(t[1..])
  }

  /** `record[k] || 0`. */
  function Lookup(t: seq<Entry>, k: string): nat {
    if t == [] then 0 else if t[0].key == k then t[0].count else Lookup(t[1..], k)
  }

  /** `record[k] = (record[k] || 0) + 1`. */
  function Bump(t: seq<Entry>, k: string): seq<Entry> {
    if t == [] then [Entry(k, 1)]
    else if t[0].key == k then [Entry(k, t[0].count + 1)] + t[1..]
    else [t[0]] + Bump(t[1..], k)
  }

  /** The record after counting every element of `s`, from first to last. */
  function TallyOf(s: seq<string>): seq<Entry> {
    if s == [] then [] else Bump(TallyOf(Init(s)), Last(s))
  }

  lemma KeysCons(e: Entry, t: seq<Entry>)
    ensures Keys([e] + t) == [e.key] + Keys(t)
  {
  }

  /** Bumping keeps the keys in order and appends a new key at the end. */
  lemma {:induction false} BumpKeys(t: seq<Entry>, k: string)
    ensures Keys(Bump(t, k)) == if k in Keys(t) then Keys(t) else Keys(t) + [k]
    decreases |t|
  {
    if t != [] {
      assert t == [t[0]] + t[1..];
      KeysCons(t[0], t[1..]);
      if t[0].key == k {
        KeysCons(Entry(k, t[0].count + 1), t[1..]);
      } else {
        BumpKeys(t[1..], k);
        KeysCons(t[0], Bump(t[1..], k));
        if k !in Keys(t[1..]) {
          assert [t[0].key] + (Keys(t[1..]) + [k]) == Keys(t) + [k];
        }
      }
    }
  }

  lemma {:induction false} BumpTotal(t: seq<Entry>, k: string)
    ensures Total(Bump(t, k)) == Total(t) + 1
    decreases |t|
  {
    if t != [] {
      if t[0].key == k {
        assert ([Entry(k, t[0].count + 1)] + t[1..])[1..] == t[1..];
      } else {
        BumpTotal(t[1..], k);
        assert ([t[0]] + Bump(t[1..], k))[1..] == Bump(t[1..], k);
      }
    }
  }

  lemma {:induction false} BumpLookup(t: seq<Entry>, k: string, j: string)
    ensures Lookup(Bump(t, k), j) == Lookup(t, j) + (if j == k then 1 else 0)
    decreases |t|
  {
    if t != [] {
      if t[0].key == k {
        assert ([Entry(k, t[0].count + 1)] + t[1..])[1..] == t[1..];
      } else {
        BumpLookup(t[1..], k, j);
        assert ([t[0]] + Bump(t[1..], k))[1..] == Bump(t[1..], k);
      }
    }
  }

  /** Bumping `k` adds `k` as a new last key if it is new, adds one to the
      total, and adds one to the value of `k` and to no other. */
  lemma BumpSpec(t: seq<Entry>, k: string)
    ensures Keys(Bump(t, k)) == if k in Keys(t) then Keys(t) else Keys(t) + [k]
    ensures Total(Bump(t, k)) == Total(t) + 1
    ensures forall j :: Lookup(Bump(t, k), j) == Lookup(t, j) + (if j == k then 1 else 0)
  {
    BumpKeys(t, k);
    BumpTotal(t, k);
    forall j ensures Lookup(Bump(t, k), j) == Lookup(t, j) + (if j == k then 1 else 0) {
      BumpLookup(t, k, j);
    }
  }

  /** The record's keys are the distinct counted values in first-seen order, the
      counts add up to the number of values counted, and each key maps to its
      number of occurrences. */
  lemma {:induction false} TallyOfSpec(s: seq<string>)
    ensures Keys(TallyOf(s)) == Distinct(s)
    ensures Total(TallyOf(s)) == |s|
    ensures forall k :: Lookup(TallyOf(s), k) == Count(s, k)
    decreases |s|
  {
    if s != [] {
      TallyOfSpec(Init(s));
      BumpSpec(TallyOf(Init(s)), Last(s));
    }
  }

  /** With distinct keys, each entry holds the record's value for its key. */
  lemma {:induction false} EntryIsLookup(t: seq<Entry>, i: nat)
    requires NoDup(Keys(t)) && i < |t|
    ensures t[i].count == Lookup(t, t[i].key)
    decreases |t|
  {
    if i > 0 {
      assert Keys(t[1..]) == Keys(t)[1..];
      assert t[0].key != t[i].key by { assert Keys(t)[0] != Keys(t)[i]; }
      EntryIsLookup(t[1..], i - 1);
    }
  }

  /** Every entry of the record counts its key's occurrences, which is at least one. */
  lemma TallyEntries(s: seq<string>)
    ensures forall i :: 0 <= i < |TallyOf(s)| ==>
      TallyOf(s)[i].count == Count(s, TallyOf(s)[i].key) >= 1
  {
    var t := TallyOf(s);
    TallyOfSpec(s);
    forall i | 0 <= i < |t| ensures t[i].count == Count(s, t[i].key) >= 1 {
      EntryIsLookup(t, i);
      assert Keys(t)[i] == t[i].key;
    }
  }

  /** Counting one more value bumps that value's entry. */
  lemma TallySnoc(s: seq<string>, x: string)
    ensures TallyOf(s + [x]) == Bump(TallyOf(s), x)
  {
    assert Init(s + [x]) == s && Last(s + [x]) == x;
  }

  /** Every entry counts its key's occurrences, at least one, and the keys are
      exactly the values counted. */
  lemma EntriesCounted(s: seq<string>)
    ensures forall e :: e in TallyOf(s) ==> e.count == Count(s, e.key) >= 1
    ensures forall x :: x in s <==> exists e :: e in TallyOf(s) && e.key == x
  {
    var t := TallyOf(s);
    TallyEntries(s);
    TallyOfSpec(s);
    forall x | x in s ensures exists e :: e in t && e.key == x {
      var i :| 0 <= i < |t| && Keys(t)[i] == x;
      assert t[i] in t;
    }
    forall e | e in t ensures e.count == Count(s, e.key) >= 1 && e.key in s {
      var i :| 0 <= i < |t| && t[i] == e;
      assert Keys(t)[i] == e.key;
    }
  }

  lemma TallyTotal(s: seq<string>)
    ensures Total(TallyOf(s)) == |s|
  {
    TallyOfSpec(s);
  }

  lemma EntryCounted(s: seq<string>, e: Entry)
    requires e in TallyOf(s)
    ensures e.count == Count(s, e.key) >= 1
  {
    EntriesCounted(s);
  }
}
