/** The ordered de-duplicating counter of `UTClib.c`: `make_entry` and
    `insert_or_match`. The doubly linked list becomes a sequence of entries in
    ascending `strcmp` order; the `prev`/`next` links carry no further information. */
module Store {
  import opened Codes

  /** Characters an entry's `dtstr[26]` holds besides its terminating NUL. */
  const KeyCapacity := 25

  /** One `dtv_t`: a stored timestamp and how often it was seen. */
  datatype Entry = Entry(key: seq<char>, count: nat)

  datatype Ordering = Less | Equal | Greater

  /** The outcome of `insert_or_match`: its code and the list it leaves. */
  datatype Outcome = Outcome(code: Code, list: seq<Entry>)

  /** `strcmp` on NUL-free strings: the first differing character decides, and a
      proper prefix compares lower. */
  function Compare(a: seq<char>, b: seq<char>): (o: Ordering)
    ensures o == Equal <==> a == b
  {
    if |a| == 0 && |b| == 0 then Equal
    else if |a| == 0 then Less
    else if |b| == 0 then Greater
    else if a[0] < b[0] then Less
    else if a[0] > b[0] then Greater
    else
      var o := Compare(a[1..], b[1..]);
      assert o == Equal ==> a == [a[0]] + a[1..] == [b[0]] + b[1..] == b;
      o
  }

  /** The length of the longest common prefix. */
  function CommonPrefix(a: seq<char>, b: seq<char>): (k: nat)
    ensures k <= |a| && k <= |b| && a[..k] == b[..k]
    ensures k < |a| && k < |b| ==> a[k] != b[k]
  {
    if |a| == 0 || |b| == 0 || a[0] != b[0] then 0
    else
      var k := CommonPrefix(a[1..], b[1..]);
      assert a[..k + 1] == [a[0]] + a[1..][..k];
      assert b[..k + 1] == [b[0]] + b[1..][..k];
      k + 1
  }

  /** Lexicographic order stated through the common prefix: `a` is a proper prefix
      of `b`, or the first character after the common prefix is smaller in `a`. */
  predicate LexBefore(a: seq<char>, b: seq<char>) {
    var k := CommonPrefix(a, b);
    (k == |a| && k < |b|) || (k < |a| && k < |b| && a[k] < b[k])
  }

  /** `Compare` is the lexicographic order. */
  lemma {:induction false} CompareIsLexicographic(a: seq<char>, b: seq<char>)
    ensures Compare(a, b) == Less <==> LexBefore(a, b)
    ensures Compare(a, b) == Greater <==> LexBefore(b, a)
  {
    if |a| > 0 && |b| > 0 && a[0] == b[0] {
      CompareIsLexicographic(a[1..], b[1..]);
      assert CommonPrefix(a, b) == CommonPrefix(a[1..], b[1..]) + 1;
      assert CommonPrefix(b, a) == CommonPrefix(b[1..], a[1..]) + 1;
    }
  }

  /** Strings that agree up to position `k` and differ there compare as the
      characters at `k` do. */
  lemma CompareFirstDifference(a: seq<char>, b: seq<char>, k: nat)
    requires k < |a| && k < |b| && a[..k] == b[..k] && a[k] < b[k]
    ensures Compare(a, b) == Less
  {
    CompareIsLexicographic(a, b);
    var cp := CommonPrefix(a, b);
    forall i | 0 <= i < k ensures a[i] == b[i] {
      assert a[i] == a[..k][i] && b[i] == b[..k][i];
    }
    forall i | 0 <= i < cp ensures a[i] == b[i] {
      assert a[i] == a[..cp][i] && b[i] == b[..cp][i];
    }
  }

  /** Swapping the arguments swaps `Less` and `Greater`. */
  lemma {:induction false} CompareFlip(a: seq<char>, b: seq<char>)
    ensures Compare(a, b) == Less <==> Compare(b, a) == Greater
  {
    if |a| > 0 && |b| > 0 && a[0] == b[0] {
      CompareFlip(a[1..], b[1..]);
    }
  }

  /** `Less` is transitive. */
  lemma {:induction false} CompareTransitive(a: seq<char>, b: seq<char>, c: seq<char>)
    requires Compare(a, b) == Less && Compare(b, c) == Less
    ensures Compare(a, c) == Less
  {
    if |a| > 0 && |b| > 0 && |c| > 0 && a[0] == b[0] == c[0] {
      CompareTransitive(a[1..], b[1..], c[1..]);
    }
  }

  /** Keys strictly ascending, hence no key twice. */
  predicate Sorted(list: seq<Entry>) {
    forall i, j :: 0 <= i < j < |list| ==> Compare(list[i].key, list[j].key) == Less
  }

  /** The key as `strncpy` leaves it in a 26-byte buffer: at most 25 characters. */
  function StoredKey(key: seq<char>): (k: seq<char>)
    ensures |k| <= KeyCapacity && k <= key
    ensures |key| <= KeyCapacity ==> k == key
  {
    if |key| <= KeyCapacity then key else key[..KeyCapacity]
  }

  /** `make_entry`: a fresh entry counting one sighting of `key`. */
  function MakeEntry(key: seq<char>): (e: Entry)
    ensures e.count == 1 && e.key == StoredKey(key)
  {
    Entry(StoredKey(key), 1)
  }

  /** The walk of `insert_or_match`: the first entry whose key does not compare
      below `key`, or the end of the list. */
  function Slot(list: seq<Entry>, key: seq<char>): (p: nat)
    ensures p <= |list|
    ensures forall i :: 0 <= i < p ==> Compare(key, list[i].key) == Greater
    ensures p < |list| ==> Compare(key, list[p].key) != Greater
  {
    if |list| == 0 || Compare(key, list[0].key) != Greater then 0
    else 1 + Slot(list[1..], key)
  }

  /** `insert_or_match`: count one more sighting of `key`, or insert it with count 1
      at its slot. `alloc` says whether `make_entry` obtains memory; when it does
      not, the code is INVALID_MEMORY and the list is left as it was. */
  function InsertOrMatch(list: seq<Entry>, key: seq<char>, alloc: bool): (r: Outcome)
    ensures r.code == Validated || (r.code == InvalidMemory && r.list == list && !alloc)
    ensures var p := Slot(list, key);
      if p < |list| && list[p].key == key then
        r.code == Validated && r.list == list[p := Entry(key, list[p].count + 1)]
      else if alloc then
        r.code == Validated && r.list == list[..p] + [MakeEntry(key)] + list[p..]
      else
        r.code == InvalidMemory
  {
    var p := Slot(list, key);
    if p < |list| && Compare(key, list[p].key) == Equal then
      Outcome(Validated, list[p := Entry(list[p].key, list[p].count + 1)])
    else if !alloc then
      Outcome(InvalidMemory, list)
    else
      Outcome(Validated, list[..p] + [MakeEntry(key)] + list[p..])
  }

  /** How often `k` was counted: the count of its entry, 0 when it has none. */
  function Count(list: seq<Entry>, k: seq<char>): nat {
    if |list| == 0 then 0
    else (if list[0].key == k then list[0].count else 0) + Count(list[1..], k)
  }

  function Keys(list: seq<Entry>): set<seq<char>> {
    set i | 0 <= i < |list| :: list[i].key
  }

  lemma {:induction false} CountAppend(a: seq<Entry>, b: seq<Entry>, k: seq<char>)
    ensures Count(a + b, k) == Count(a, k) + Count(b, k)
  {
    if |a| > 0 {
      assert (a + b)[1..] == a[1..] + b;
      CountAppend(a[1..], b, k);
    } else {
      assert a + b == b;
    }
  }

  lemma CountSingle(e: Entry, k: seq<char>)
    ensures Count([e], k) == if e.key == k then e.count else 0
  {
    assert [e][1..] == [];
  }

  /** Inserting a key keeps the keys strictly ascending, when the key fits the
      entry's buffer (as every buffer the matcher accepts does). */
  lemma InsertKeepsSorted(list: seq<Entry>, key: seq<char>, alloc: bool)
    requires Sorted(list) && |key| <= KeyCapacity
    ensures Sorted(InsertOrMatch(list, key, alloc).list)
  {
    var p := Slot(list, key);
    var r := InsertOrMatch(list, key, alloc);
    if p < |list| && list[p].key == key {
      assert forall i :: 0 <= i < |list| ==> r.list[i].key == list[i].key;
    } else if alloc {
      var e := MakeEntry(key);
      forall i, j | 0 <= i < j < |r.list|
        ensures Compare(r.list[i].key, r.list[j].key) == Less
      {
        if j < p {
          assert r.list[i] == list[i] && r.list[j] == list[j];
        } else if j == p {
          assert r.list[i] == list[i] && r.list[j] == e;
          CompareFlip(list[i].key, key);
        } else if i == p {
          assert r.list[j] == list[j - 1];
          assert Compare(key, list[p].key) == Less;
          if j - 1 > p {
            CompareTransitive(key, list[p].key, list[j - 1].key);
          }
        } else if i < p {
          assert r.list[i] == list[i] && r.list[j] == list[j - 1];
        } else {
          assert r.list[i] == list[i - 1] && r.list[j] == list[j - 1];
        }
      }
    }
  }

  /** "Nothing else changes": a successful insert-or-match counts `key` once more
      and leaves every other key's count as it was; a failed one changes nothing. */
  lemma CountFrame(list: seq<Entry>, key: seq<char>, alloc: bool, k: seq<char>)
    requires |key| <= KeyCapacity
    ensures var r := InsertOrMatch(list, key, alloc);
      Count(r.list, k) == Count(list, k) + (if r.code == Validated && k == key then 1 else 0)
  {
    var p := Slot(list, key);
    if p < |list| && list[p].key == key {
      CountReplace(list, p, Entry(key, list[p].count + 1), k);
    } else if alloc {
      CountInsert(list, p, MakeEntry(key), k);
    }
  }

  lemma CountReplace(list: seq<Entry>, p: nat, e: Entry, k: seq<char>)
    requires p < |list| && e.key == list[p].key
    ensures Count(list[p := e], k) == Count(list, k) - (if e.key == k then list[p].count else 0) + (if e.key == k then e.count else 0)
  {
    var pre, post := list[..p], list[p + 1..];
    assert list == pre + [list[p]] + post;
    assert list[p := e] == pre + [e] + post;
    CountAppend(pre + [list[p]], post, k);
    CountAppend(pre, [list[p]], k);
    CountAppend(pre + [e], post, k);
    CountAppend(pre, [e], k);
    CountSingle(list[p], k);
    CountSingle(e, k);
  }

  lemma CountInsert(list: seq<Entry>, p: nat, e: Entry, k: seq<char>)
    requires p <= |list|
    ensures Count(list[..p] + [e] + list[p..], k) == Count(list, k) + (if e.key == k then e.count else 0)
  {
    assert list == list[..p] + list[p..];
    CountAppend(list[..p], list[p..], k);
    CountAppend(list[..p] + [e], list[p..], k);
    CountAppend(list[..p], [e], k);
    CountSingle(e, k);
  }

  /** No count ever goes down, whether or not the list is sorted. */
  lemma InsertCountGrows(list: seq<Entry>, key: seq<char>, alloc: bool, k: seq<char>)
    ensures Count(InsertOrMatch(list, key, alloc).list, k) >= Count(list, k)
  {
    var p := Slot(list, key);
    if p < |list| && list[p].key == key {
      CountReplace(list, p, Entry(key, list[p].count + 1), k);
    } else if alloc {
      CountInsert(list, p, MakeEntry(key), k);
    }
  }

  /** A successful call leaves exactly the old keys plus `key`. */
  lemma KeysAfter(list: seq<Entry>, key: seq<char>, alloc: bool)
    requires |key| <= KeyCapacity
    ensures var r := InsertOrMatch(list, key, alloc);
      Keys(r.list) == Keys(list) + (if r.code == Validated then {key} else {})
  {
    var p := Slot(list, key);
    var r := InsertOrMatch(list, key, alloc);
    if p < |list| && list[p].key == key {
      assert forall i :: 0 <= i < |list| ==> r.list[i].key == list[i].key;
    } else if alloc {
      assert r.list[p].key == key;
      forall k | k in Keys(list) ensures k in Keys(r.list) {
        var i :| 0 <= i < |list| && list[i].key == k;
        if i < p { assert r.list[i] == list[i]; } else { assert r.list[i + 1] == list[i]; }
      }
    }
  }

  /** The first timestamp counted forms a list of its own. */
  lemma InsertIntoEmpty(key: seq<char>)
    requires |key| <= KeyCapacity
    ensures InsertOrMatch([], key, true) == Outcome(Validated, [Entry(key, 1)])
  {
  }
}
