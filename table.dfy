// The open-addressing hash table with tombstones (src/table.c).
module Tables {
  import opened Options
  import opened Values
  import opened Memory
  import opened Objects

  /** A slot: a NULL key with a nil value is truly empty, a NULL key with any
      other value is a tombstone left by a deletion, a non-NULL key is live. */
  datatype Entry = Entry(key: ObjString?, value: Value)

  predicate IsEmptySlot(e: Entry) { e.key == null && e.value.NilVal? }
  predicate IsTombstone(e: Entry) { e.key == null && !e.value.NilVal? }
  predicate IsLive(e: Entry) { e.key != null }

  /** `count + 1 > capacity * TABLE_MAX_LOAD` with TABLE_MAX_LOAD = 0.75,
      in exact integer arithmetic. */
  predicate OverMaxLoad(count: nat, capacity: nat) {
    4 * (count + 1) > 3 * capacity
  }

  // ---------------------------------------------------------------------
  // Probe sequences

  /** The home slot of a key: its cached hash modulo the capacity. */
  function Home(key: ObjString, n: nat): (h: nat)
    requires n > 0
    ensures h < n
  {
    key.hash as int % n
  }

  /** The slot visited `j` steps after the home slot `h`, wrapping around. */
  function Probe(h: nat, j: nat, n: nat): (r: nat)
    requires h < n && j < n
    ensures r < n
  {
    if h + j < n then h + j else h + j - n
  }

  /** How many steps after `h` the probe reaches slot `i`. */
  function Dist(h: nat, i: nat, n: nat): (d: nat)
    requires h < n && i < n
    ensures d < n && Probe(h, d, n) == i
  {
    if h <= i then i - h else i + n - h
  }

  /** Stepping the probe index the way the source does, `(index + 1) %
      capacity`, visits the next slot of the probe sequence. */
  lemma ProbeStep(h: nat, j: nat, n: nat)
    requires h < n && j + 1 < n
    ensures (Probe(h, j, n) + 1) % n == Probe(h, j + 1, n)
  {
  }

  /** No slot among the first `d` of the probe sequence from `h` is truly
      empty, so a probe from `h` runs past all of them. */
  ghost predicate ProbeClear(s: seq<Entry>, h: nat, d: nat)
    requires h < |s| && d <= |s|
  {
    forall j :: 0 <= j < d ==> !IsEmptySlot(s[Probe(h, j, |s|)])
  }

  /** The first `d` slots of the probe sequence from `h` are all live. */
  ghost predicate AllLive(s: seq<Entry>, h: nat, d: nat)
    requires h < |s| && d <= |s|
  {
    forall j :: 0 <= j < d ==> IsLive(s[Probe(h, j, |s|)])
  }

  /** A probe for `key` from its home slot reaches every slot holding it. */
  ghost predicate KeyReachable(s: seq<Entry>, key: ObjString)
  {
    forall i :: 0 <= i < |s| && s[i].key == key ==>
      ProbeClear(s, Home(key, |s|), Dist(Home(key, |s|), i, |s|))
  }

  ghost predicate KeyAbsent(s: seq<Entry>, key: ObjString)
  {
    forall i :: 0 <= i < |s| ==> s[i].key != key
  }

  ghost predicate KeysUnique(s: seq<Entry>)
  {
    forall i, j :: 0 <= i < |s| && 0 <= j < |s| && i != j && s[i].key != null ==> s[i].key != s[j].key
  }

  /** The structural invariant of the slots: no key twice, every live key
      reachable from its home slot, every key a well-formed string. */
  ghost predicate Structured(s: seq<Entry>)
  {
    && KeysUnique(s)
    && (forall i :: 0 <= i < |s| && s[i].key != null ==>
          ProbeClear(s, Home(s[i].key, |s|), Dist(Home(s[i].key, |s|), i, |s|)))
    && (forall i :: 0 <= i < |s| && s[i].key != null ==> s[i].key.WellFormed())
  }

  // ---------------------------------------------------------------------
  // Counting slots and the abstract contents

  function CountNonEmpty(s: seq<Entry>): nat
  {
    if s == [] then 0
    else CountNonEmpty(s[..|s| - 1]) + (if IsEmptySlot(s[|s| - 1]) then 0 else 1)
  }

  function CountLive(s: seq<Entry>): nat
  {
    if s == [] then 0
    else CountLive(s[..|s| - 1]) + (if IsLive(s[|s| - 1]) then 1 else 0)
  }

  function CountTombstones(s: seq<Entry>): nat
  {
    if s == [] then 0
    else CountTombstones(s[..|s| - 1]) + (if IsTombstone(s[|s| - 1]) then 1 else 0)
  }

  /** The key/value pairs the live slots hold. */
  function MapOf(s: seq<Entry>): map<ObjString, Value>
  {
    if s == [] then map[]
    else
      var m := MapOf(s[..|s| - 1]);
      var e := s[|s| - 1];
      if e.key != null then m[e.key := e.value] else m
  }

  /** Every slot is live, a tombstone or truly empty, so the non-empty
      slots are the live ones plus the tombstones. */
  lemma {:induction false} CountSplit(s: seq<Entry>)
    ensures CountNonEmpty(s) == CountLive(s) + CountTombstones(s)
  {
    if s != [] {
      CountSplit(s[..|s| - 1]);
    }
  }

  /** Overwriting one slot changes the non-empty count by what left and
      what came in. */
  lemma {:induction false} CountNonEmptyUpdate(s: seq<Entry>, r: nat, e: Entry)
    requires r < |s|
    ensures CountNonEmpty(s[r := e]) ==
      CountNonEmpty(s) - (if IsEmptySlot(s[r]) then 0 else 1) + (if IsEmptySlot(e) then 0 else 1)
  {
    var t := s[r := e];
    if r == |s| - 1 {
      assert t[..|t| - 1] == s[..|s| - 1];
    } else {
      assert t[..|t| - 1] == s[..|s| - 1][r := e];
      CountNonEmptyUpdate(s[..|s| - 1], r, e);
    }
  }

  lemma {:induction false} CountTombstonesUpdate(s: seq<Entry>, r: nat, e: Entry)
    requires r < |s|
    ensures CountTombstones(s[r := e]) ==
      CountTombstones(s) - (if IsTombstone(s[r]) then 1 else 0) + (if IsTombstone(e) then 1 else 0)
  {
    var t := s[r := e];
    if r == |s| - 1 {
      assert t[..|t| - 1] == s[..|s| - 1];
    } else {
      assert t[..|t| - 1] == s[..|s| - 1][r := e];
      CountTombstonesUpdate(s[..|s| - 1], r, e);
    }
  }

  /** A table without a truly empty slot counts every slot. */
  lemma {:induction false} CountFull(s: seq<Entry>)
    requires forall i :: 0 <= i < |s| ==> !IsEmptySlot(s[i])
    ensures CountNonEmpty(s) == |s|
  {
    if s != [] {
      CountFull(s[..|s| - 1]);
    }
  }

  lemma {:induction false} CountNoTombstones(s: seq<Entry>)
    requires forall i :: 0 <= i < |s| ==> !IsTombstone(s[i])
    ensures CountTombstones(s) == 0
  {
    if s != [] {
      CountNoTombstones(s[..|s| - 1]);
    }
  }

  lemma {:induction false} CountLivePrefix(s: seq<Entry>, i: nat)
    requires i < |s|
    ensures CountLive(s[..i + 1]) == CountLive(s[..i]) + (if IsLive(s[i]) then 1 else 0)
    ensures CountLive(s[..i]) <= CountLive(s)
    decreases |s| - i
  {
    assert s[..i + 1][..i] == s[..i];
    if i + 1 < |s| {
      CountLivePrefix(s, i + 1);
    } else {
      assert s[..i + 1] == s;
    }
  }

  lemma {:induction false} CountLiveBound(s: seq<Entry>)
    ensures CountLive(s) <= CountNonEmpty(s)
  {
    if s != [] {
      CountLiveBound(s[..|s| - 1]);
    }
  }

  lemma UniquePrefix(s: seq<Entry>, k: nat)
    requires KeysUnique(s) && k <= |s|
    ensures KeysUnique(s[..k])
  {
    var p := s[..k];
    forall i, j | 0 <= i < |p| && 0 <= j < |p| && i != j && p[i].key != null
      ensures p[i].key != p[j].key
    {
      assert p[i] == s[i] && p[j] == s[j];
    }
  }

  /** Under unique keys, a live slot's pair is in the contents. */
  lemma {:induction false} MapOfLookup(s: seq<Entry>, i: nat)
    requires KeysUnique(s) && i < |s| && s[i].key != null
    ensures s[i].key in MapOf(s) && MapOf(s)[s[i].key] == s[i].value
  {
    var last := |s| - 1;
    if i < last {
      UniquePrefix(s, last);
      assert s[..last][i] == s[i];
      MapOfLookup(s[..last], i);
      assert s[last].key != s[i].key;
    }
  }

  /** A key held by no slot is not in the contents. */
  lemma {:induction false} MapOfAbsent(s: seq<Entry>, k: ObjString)
    requires KeyAbsent(s, k)
    ensures k !in MapOf(s)
  {
    if s != [] {
      var p := s[..|s| - 1];
      assert KeyAbsent(p, k) by {
        forall i | 0 <= i < |p| ensures p[i].key != k {
          assert p[i] == s[i];
        }
      }
      MapOfAbsent(p, k);
    }
  }

  /** The keys of the contents are exactly the keys of the live slots. */
  lemma MapOfKeys(s: seq<Entry>, k: ObjString)
    requires KeysUnique(s)
    ensures k in MapOf(s) <==> !KeyAbsent(s, k)
  {
    if KeyAbsent(s, k) {
      MapOfAbsent(s, k);
    } else {
      var i :| 0 <= i < |s| && s[i].key == k;
      MapOfLookup(s, i);
    }
  }

  /** Storing `key` in its own slot, or in a free slot while it is held
      nowhere, updates the contents at `key` and nowhere else. */
  lemma {:induction false} MapOfUpdate(s: seq<Entry>, r: nat, key: ObjString, value: Value)
    requires KeysUnique(s) && r < |s|
    requires s[r].key == key || (s[r].key == null && KeyAbsent(s, key))
    ensures MapOf(s[r := Entry(key, value)]) == MapOf(s)[key := value]
  {
    var last := |s| - 1;
    var p := s[..last];
    var t := s[r := Entry(key, value)];
    UniquePrefix(s, last);
    if r == last {
      assert t[..last] == p;
      if s[last].key == key {
        MapOfAbsentAfterUnique(s);
      }
    } else {
      assert t[..last] == p[r := Entry(key, value)];
      assert p[r] == s[r];
      assert s[r].key == null ==> KeyAbsent(p, key) by {
        if s[r].key == null {
          forall i | 0 <= i < |p| ensures p[i].key != key { assert p[i] == s[i]; }
        }
      }
      MapOfUpdate(p, r, key, value);
      assert s[last].key != key;
    }
  }

  /** Under unique keys the last slot's key appears nowhere before it. */
  lemma MapOfAbsentAfterUnique(s: seq<Entry>)
    requires KeysUnique(s) && s != [] && s[|s| - 1].key != null
    ensures s[|s| - 1].key !in MapOf(s[..|s| - 1])
  {
    var p := s[..|s| - 1];
    var k := s[|s| - 1].key;
    forall i | 0 <= i < |p| ensures p[i].key != k {
      assert p[i] == s[i];
    }
    MapOfAbsent(p, k);
  }

  /** Emptying the slot of a live key removes exactly that key. */
  lemma {:induction false} MapOfRemove(s: seq<Entry>, r: nat, e: Entry)
    requires KeysUnique(s) && r < |s| && s[r].key != null && e.key == null
    ensures MapOf(s[r := e]) == MapOf(s) - {s[r].key}
  {
    var last := |s| - 1;
    var p := s[..last];
    var t := s[r := e];
    UniquePrefix(s, last);
    if r == last {
      assert t[..last] == p;
      MapOfAbsentAfterUnique(s);
    } else {
      assert t[..last] == p[r := e];
      assert p[r] == s[r];
      MapOfRemove(p, r, e);
      assert s[last].key != s[r].key;
    }
  }

  /** Under unique keys, the contents have one pair per live slot. */
  lemma {:induction false} MapSizeIsLiveCount(s: seq<Entry>)
    requires KeysUnique(s)
    ensures |MapOf(s)| == CountLive(s)
  {
    if s != [] {
      var p := s[..|s| - 1];
      UniquePrefix(s, |s| - 1);
      MapSizeIsLiveCount(p);
      if s[|s| - 1].key != null {
        MapOfAbsentAfterUnique(s);
      }
    }
  }

  /** `count` counts the live entries and the tombstones. */
  lemma CountIsLivePlusTombstones(s: seq<Entry>)
    requires KeysUnique(s)
    ensures CountNonEmpty(s) == |MapOf(s)| + CountTombstones(s)
  {
    CountSplit(s);
    MapSizeIsLiveCount(s);
  }

  // ---------------------------------------------------------------------
  // Why the probe loops stop

  /** A probe sequence visits every slot once within `|s|` steps. */
  lemma ProbeCoversAll(s: seq<Entry>, h: nat)
    requires h < |s| && ProbeClear(s, h, |s|)
    ensures forall i :: 0 <= i < |s| ==> !IsEmptySlot(s[i])
  {
    forall i | 0 <= i < |s| ensures !IsEmptySlot(s[i]) {
      var d := Dist(h, i, |s|);
      assert Probe(h, d, |s|) == i;
    }
  }

  /** While some slot is truly empty, every probe sequence reaches one
      within `|s|` steps. This is what makes both probe loops terminate. */
  lemma ProbeFindsEmpty(s: seq<Entry>, h: nat)
    requires h < |s| && CountNonEmpty(s) < |s|
    ensures !ProbeClear(s, h, |s|)
  {
    if ProbeClear(s, h, |s|) {
      ProbeCoversAll(s, h);
      CountFull(s);
    }
  }

  /** The load-factor invariant leaves a truly empty slot in any non-empty
      table. */
  lemma LoadLeavesEmptySlot(count: nat, capacity: nat)
    requires 4 * count <= 3 * capacity && capacity > 0
    ensures count < capacity
  {
  }

  /** A probe that hits a truly empty slot at step `steps` has already
      passed every reachable slot at a smaller distance. */
  lemma StopAtEmpty(s: seq<Entry>, h: nat, steps: nat, i: nat)
    requires h < |s| && steps < |s| && i < |s|
    requires IsEmptySlot(s[Probe(h, steps, |s|)]) && !IsEmptySlot(s[i])
    requires ProbeClear(s, h, Dist(h, i, |s|))
    ensures Dist(h, i, |s|) < steps
  {
  }

  /** A probe for `key` that meets a truly empty slot without having met
      `key` proves the key is held nowhere. */
  lemma ProbeMissMeansAbsent(s: seq<Entry>, key: ObjString, steps: nat)
    requires 0 < |s| && steps < |s|
    requires KeyReachable(s, key)
    requires IsEmptySlot(s[Probe(Home(key, |s|), steps, |s|)])
    requires forall j :: 0 <= j < steps ==> s[Probe(Home(key, |s|), j, |s|)].key != key
    ensures KeyAbsent(s, key)
  {
    var h := Home(key, |s|);
    forall i | 0 <= i < |s| ensures s[i].key != key {
      if s[i].key == key {
        StopAtEmpty(s, h, steps, i);
      }
    }
  }

  // ---------------------------------------------------------------------
  // The invariant survives the writes the table performs

  /** Writing `key` where a probe for it stops keeps the slots structured. */
  lemma SetKeepsStructure(s: seq<Entry>, r: nat, key: ObjString, value: Value)
    requires Structured(s) && r < |s|
    requires s[r].key == key || (s[r].key == null && KeyAbsent(s, key))
    requires ProbeClear(s, Home(key, |s|), Dist(Home(key, |s|), r, |s|))
    requires key.WellFormed()
    ensures Structured(s[r := Entry(key, value)])
  {
    var t := s[r := Entry(key, value)];
    var n := |s|;
    forall i | 0 <= i < n && t[i].key != null
      ensures ProbeClear(t, Home(t[i].key, n), Dist(Home(t[i].key, n), i, n))
    {
      var h := Home(t[i].key, n);
      var d := Dist(h, i, n);
      forall j | 0 <= j < d ensures !IsEmptySlot(t[Probe(h, j, n)]) {
        var p := Probe(h, j, n);
        if p != r {
          assert t[p] == s[p];
        }
      }
    }
    forall i, j | 0 <= i < n && 0 <= j < n && i != j && t[i].key != null
      ensures t[i].key != t[j].key
    {
      if i != r && j != r {
        assert t[i] == s[i] && t[j] == s[j];
      }
    }
  }

  /** Turning a live slot into a tombstone keeps the slots structured: the
      tombstone still lets probes pass. */
  lemma DeleteKeepsStructure(s: seq<Entry>, r: nat, e: Entry)
    requires Structured(s) && r < |s| && e.key == null && !IsEmptySlot(e)
    ensures Structured(s[r := e])
  {
    var t := s[r := e];
    var n := |s|;
    forall i | 0 <= i < n && t[i].key != null
      ensures ProbeClear(t, Home(t[i].key, n), Dist(Home(t[i].key, n), i, n))
    {
      var h := Home(t[i].key, n);
      var d := Dist(h, i, n);
      assert t[i] == s[i];
      forall j | 0 <= j < d ensures !IsEmptySlot(t[Probe(h, j, n)]) {
        var p := Probe(h, j, n);
        if p != r {
          assert t[p] == s[p];
        }
      }
    }
    forall i, j | 0 <= i < n && 0 <= j < n && i != j && t[i].key != null
      ensures t[i].key != t[j].key
    {
      assert t[i] == s[i];
      if j != r {
        assert t[j] == s[j];
      }
    }
  }

  /** A table of truly empty slots is structured and holds nothing. */
  lemma AllEmptyTable(s: seq<Entry>)
    requires forall i :: 0 <= i < |s| ==> IsEmptySlot(s[i])
    ensures Structured(s) && CountNonEmpty(s) == 0 && MapOf(s) == map[]
  {
    if s != [] {
      AllEmptyTable(s[..|s| - 1]);
    }
  }

  /** Reading the probe index back: `Dist` undoes `Probe`. */
  lemma DistOfProbe(h: nat, j: nat, n: nat)
    requires h < n && j < n
    ensures Dist(h, Probe(h, j, n), n) == j
  {
  }

  /** Under unique keys, the key of slot `i` is not among the pairs of the
      slots before it. */
  lemma FreshInPrefix(s: seq<Entry>, i: nat)
    requires KeysUnique(s) && i < |s| && s[i].key != null
    ensures s[i].key !in MapOf(s[..i])
    ensures MapOf(s[..i + 1]) == MapOf(s[..i])[s[i].key := s[i].value]
  {
    var p := s[..i + 1];
    UniquePrefix(s, i + 1);
    assert p[..i] == s[..i];
    MapOfAbsentAfterUnique(p);
  }

  /** adjust_capacity's copy skips an empty or tombstone slot: the live
      prefix gains nothing. */
  lemma RehashSkip(prev: seq<Entry>, i: nat)
    requires i < |prev| && prev[i].key == null
    ensures CountLive(prev[..i + 1]) == CountLive(prev[..i])
    ensures MapOf(prev[..i + 1]) == MapOf(prev[..i])
  {
    CountLivePrefix(prev, i);
    assert prev[..i + 1][..i] == prev[..i];
  }

  /** adjust_capacity's copy of a live slot: `t` holds the live entries of
      `prev[..i]` with no tombstone, so find_entry stops at an empty slot,
      and writing `prev[i]` there makes `t` hold those of `prev[..i + 1]`. */
  lemma RehashStep(prev: seq<Entry>, i: nat, t: seq<Entry>, dest: nat)
    requires Structured(prev) && i < |prev| && prev[i].key != null
    requires Structured(t) && forall j :: 0 <= j < |t| ==> !IsTombstone(t[j])
    requires CountNonEmpty(t) == CountLive(prev[..i]) && MapOf(t) == MapOf(prev[..i])
    requires dest < |t| && (t[dest].key == prev[i].key || t[dest].key == null)
    requires ProbeClear(t, Home(prev[i].key, |t|), Dist(Home(prev[i].key, |t|), dest, |t|))
    ensures var u := t[dest := Entry(prev[i].key, prev[i].value)];
      && Structured(u) && (forall j :: 0 <= j < |u| ==> !IsTombstone(u[j]))
      && CountNonEmpty(u) == CountLive(prev[..i + 1]) && MapOf(u) == MapOf(prev[..i + 1])
  {
    var k, v := prev[i].key, prev[i].value;
    CountLivePrefix(prev, i);
    FreshInPrefix(prev, i);
    MapOfKeys(t, k);
    assert KeyAbsent(t, k);
    CountNonEmptyUpdate(t, dest, Entry(k, v));
    MapOfUpdate(t, dest, k, v);
    SetKeepsStructure(t, dest, k, v);
  }

  /** `memcmp`-style match of a live key against a character sequence and
      a hash, as table_find_string compares them. */
  predicate Matches(k: ObjString, chars: seq<char>, length: nat, hash: uint32)
    requires length <= |chars|
    reads k.chars
  {
    k.length == length && k.hash == hash && length <= k.chars.Length && k.chars[..length] == chars[..length]
  }

  /** One step of table_find_string's probe past a slot that neither stops
      nor matches: the next slot is `(index + 1) % capacity`, still inside
      the table because a truly empty slot lies ahead. */
  lemma FindStringStep(s: seq<Entry>, chars: seq<char>, length: nat, hash: uint32, h: nat, steps: nat)
    requires h < |s| && steps < |s| && length <= |chars| && !ProbeClear(s, h, |s|)
    requires ProbeClear(s, h, steps) && !IsEmptySlot(s[Probe(h, steps, |s|)])
    requires forall j :: 0 <= j < steps ==>
      s[Probe(h, j, |s|)].key == null || !Matches(s[Probe(h, j, |s|)].key, chars, length, hash)
    requires s[Probe(h, steps, |s|)].key == null || !Matches(s[Probe(h, steps, |s|)].key, chars, length, hash)
    ensures steps + 1 < |s| && (Probe(h, steps, |s|) + 1) % |s| == Probe(h, steps + 1, |s|)
    ensures ProbeClear(s, h, steps + 1)
    ensures forall j :: 0 <= j < steps + 1 ==>
      s[Probe(h, j, |s|)].key == null || !Matches(s[Probe(h, j, |s|)].key, chars, length, hash)
  {
    assert ProbeClear(s, h, steps + 1);
    ProbeStep(h, steps, |s|);
  }

  /** table_find_string's miss: the probe from the hash's home slot met a
      truly empty slot having passed no matching key, so no key of the
      table matches. */
  lemma FindStringMiss(s: seq<Entry>, chars: seq<char>, length: nat, hash: uint32, h: nat, steps: nat)
    requires Structured(s) && 0 < |s| && h == hash as int % |s| && steps < |s| && length <= |chars|
    requires IsEmptySlot(s[Probe(h, steps, |s|)])
    requires forall j :: 0 <= j < steps ==>
      s[Probe(h, j, |s|)].key == null || !Matches(s[Probe(h, j, |s|)].key, chars, length, hash)
    ensures forall k :: k in MapOf(s) ==> !Matches(k, chars, length, hash)
  {
    forall k | k in MapOf(s) ensures !Matches(k, chars, length, hash) {
      MapOfKeys(s, k);
      var i :| 0 <= i < |s| && s[i].key == k;
      if k.hash == hash {
        StopAtEmpty(s, h, steps, i);
        DistOfProbe(h, Dist(h, i, |s|), |s|);
      }
    }
  }

  /** table_set's write: find_entry's slot holds the key or is free (and
      then the key is nowhere), so writing the pair there keeps the
      structure, binds the key, and counts one more occupied slot exactly
      when the slot was truly empty. */
  lemma SetSlot(s: seq<Entry>, index: nat, key: ObjString, value: Value)
    requires Structured(s) && index < |s| && key.WellFormed()
    requires s[index].key == key || s[index].key == null
    requires ProbeClear(s, Home(key, |s|), Dist(Home(key, |s|), index, |s|))
    requires s[index].key == null && KeyReachable(s, key) ==> KeyAbsent(s, key)
    ensures var u := s[index := Entry(key, value)];
      && (s[index].key == null <==> key !in MapOf(s))
      && Structured(u) && MapOf(u) == MapOf(s)[key := value]
      && CountNonEmpty(u) == CountNonEmpty(s) + (if IsEmptySlot(s[index]) then 1 else 0)
      && CountTombstones(u) == CountTombstones(s) - (if IsTombstone(s[index]) then 1 else 0)
  {
    if s[index].key == null {
      assert KeyReachable(s, key);
      MapOfAbsent(s, key);
    } else {
      MapOfLookup(s, index);
    }
    CountNonEmptyUpdate(s, index, Entry(key, value));
    CountTombstonesUpdate(s, index, Entry(key, value));
    MapOfUpdate(s, index, key, value);
    SetKeepsStructure(s, index, key, value);
  }

  /** The hash table: `entries` is NULL exactly when `capacity` is 0, which
      an empty array stands for here. `count` counts live entries AND
      tombstones. */
  class Table {
    var count: nat
    var capacity: nat
    var entries: array<Entry>

    ghost predicate Valid()
      reads this, entries
    {
      && entries.Length == capacity
      && count == CountNonEmpty(entries[..])
      && 4 * count <= 3 * capacity
      && Structured(entries[..])
    }

    /** The key/value pairs the table holds. */
    ghost function Contents(): map<ObjString, Value>
      reads this, entries
    {
      MapOf(entries[..])
    }

    ghost function Tombstones(): nat
      reads this, entries
    {
      CountTombstones(entries[..])
    }

    /** init_table */
    constructor Init()
      ensures Valid() && Contents() == map[]
      ensures count == 0 && capacity == 0
    {
      count := 0;
      capacity := 0;
      entries := new Entry[0];
      new;
      AllEmptyTable(entries[..]);
    }

    /** free_table: release the slots and start over empty. */
    method Free()
      modifies this
      ensures Valid() && Contents() == map[]
      ensures count == 0 && capacity == 0
    {
      entries := new Entry[0];
      count := 0;
      capacity := 0;
      AllEmptyTable(entries[..]);
    }

    /** table_get: the value stored under `key`, if any. */
    method Get(key: ObjString) returns (r: Option<Value>)
      requires Valid()
      ensures key in Contents() ==> r == Some(Contents()[key])
      ensures key !in Contents() ==> r == None
    {
      if capacity == 0 {
        assert entries[..] == [];
        return None;
      }
      var index := FindEntry(entries, capacity, key);
      if entries[index].key == null {
        MapOfAbsent(entries[..], key);
        return None;
      }
      MapOfLookup(entries[..], index);
      r := Some(entries[index].value);
    }

    /** table_set: store `value` under `key`, growing first when one more
        entry would pass the 0.75 load factor. The answer says whether the
        key was new; a reused tombstone does not raise `count`. */
    method Set(key: ObjString, value: Value) returns (isNewKey: bool)
      requires Valid() && key.WellFormed()
      modifies this, entries
      ensures Valid()
      ensures Contents() == old(Contents())[key := value]
      ensures isNewKey <==> key !in old(Contents())
      ensures OverMaxLoad(old(count), old(capacity)) ==>
        capacity == GrowCapacity(old(capacity)) && fresh(entries) && Tombstones() == 0
      ensures !OverMaxLoad(old(count), old(capacity)) ==>
        && capacity == old(capacity) && entries == old(entries) && old(count) <= count <= old(count) + 1
        && (count == old(count) + 1 <==> isNewKey && Tombstones() == old(Tombstones()))
    {
      if OverMaxLoad(count, capacity) {
        AdjustCapacity(GrowCapacity(capacity));
      }
      isNewKey := Put(key, value);
    }

    /** The part of table_set after the load check: write the pair into the
        slot find_entry picks, counting a truly empty slot as newly used. */
    method Put(key: ObjString, value: Value) returns (isNewKey: bool)
      requires Valid() && key.WellFormed() && !OverMaxLoad(count, capacity)
      modifies this, entries
      ensures Valid() && entries == old(entries) && capacity == old(capacity)
      ensures Contents() == old(Contents())[key := value]
      ensures isNewKey <==> key !in old(Contents())
      ensures old(count) <= count <= old(count) + 1
      ensures count == old(count) + 1 <==> isNewKey && Tombstones() == old(Tombstones())
      ensures Tombstones() == old(Tombstones()) || (isNewKey && Tombstones() + 1 == old(Tombstones()))
    {
      var index := FindEntry(entries, capacity, key);
      ghost var s := entries[..];
      SetSlot(s, index, key, value);
      isNewKey := entries[index].key == null;
      if isNewKey && entries[index].value.NilVal? {
        count := count + 1;
      }
      entries[index] := Entry(key, value);
      assert entries[..] == s[index := Entry(key, value)];
    }

    /** table_delete: replace the key's slot by a tombstone. `count` does
        not drop, because tombstones stay counted. */
    method Delete(key: ObjString) returns (deleted: bool)
      requires Valid()
      modifies entries
      ensures Valid()
      ensures deleted <==> key in old(Contents())
      ensures Contents() == old(Contents()) - {key}
      ensures count == old(count) && capacity == old(capacity)
      ensures deleted ==> Tombstones() == old(Tombstones()) + 1
      ensures !deleted ==> entries[..] == old(entries[..])
    {
      if count == 0 {
        CountIsLivePlusTombstones(entries[..]);
        return false;
      }
      var index := FindEntry(entries, capacity, key);
      ghost var s := entries[..];
      if entries[index].key == null {
        MapOfAbsent(s, key);
        return false;
      }
      MapOfLookup(s, index);
      entries[index] := Entry(null, BoolVal(true));
      assert entries[..] == s[index := Entry(null, BoolVal(true))];
      CountNonEmptyUpdate(s, index, Entry(null, BoolVal(true)));
      CountTombstonesUpdate(s, index, Entry(null, BoolVal(true)));
      MapOfRemove(s, index, Entry(null, BoolVal(true)));
      DeleteKeepsStructure(s, index, Entry(null, BoolVal(true)));
      deleted := true;
    }

    /** adjust_capacity: move every live entry into a fresh array of
        `newCapacity` slots, dropping the tombstones, and recount. */
    method AdjustCapacity(newCapacity: nat)
      requires Valid() && 0 < newCapacity && 4 * count <= 3 * newCapacity
      modifies this
      ensures Valid() && fresh(entries)
      ensures capacity == newCapacity
      ensures Contents() == old(Contents())
      ensures Tombstones() == 0 && count == |Contents()| && count <= old(count)
    {
      CountLiveBound(entries[..]);
      var newEntries, live := Rehash(entries, newCapacity);
      entries := newEntries;
      capacity := newCapacity;
      count := live;
      CountNoTombstones(entries[..]);
      CountIsLivePlusTombstones(entries[..]);
    }

    /** The body of adjust_capacity: a fresh array of `newCapacity` empty
        slots, into which every live entry of `from` is re-inserted through
        find_entry; tombstones are dropped, and `live` counts the entries
        moved (adjust_capacity rebuilds the table's count the same way). */
    static method Rehash(from: array<Entry>, newCapacity: nat) returns (to: array<Entry>, live: nat)
      requires Structured(from[..]) && CountLive(from[..]) < newCapacity
      ensures fresh(to) && to.Length == newCapacity
      ensures Structured(to[..]) && forall j :: 0 <= j < newCapacity ==> !IsTombstone(to[j])
      ensures live == CountNonEmpty(to[..]) == CountLive(from[..])
      ensures MapOf(to[..]) == MapOf(from[..])
    {
      to := new Entry[newCapacity];
      for i := 0 to newCapacity
        modifies to
        invariant forall j :: 0 <= j < i ==> to[j] == Entry(null, NilVal)
      {
        to[i] := Entry(null, NilVal);
      }
      AllEmptyTable(to[..]);
      ghost var prev := from[..];
      live := 0;
      for i := 0 to from.Length
        invariant live == CountNonEmpty(to[..]) == CountLive(prev[..i])
        invariant forall j :: 0 <= j < newCapacity ==> !IsTombstone(to[j])
        invariant Structured(to[..])
        invariant MapOf(to[..]) == MapOf(prev[..i])
      {
        CountLivePrefix(prev, i);
        var entry := from[i];
        if entry.key == null {
          RehashSkip(prev, i);
          continue;
        }
        var dest := FindEntry(to, newCapacity, entry.key);
        ghost var t := to[..];
        RehashStep(prev, i, t, dest);
        to[dest] := Entry(entry.key, entry.value);
        assert to[..] == t[dest := Entry(entry.key, entry.value)];
        live := live + 1;
      }
      assert prev[..from.Length] == prev;
    }

    /** find_entry: probe from the key's home slot. Stop at the key's own
        slot, or at a truly empty slot; in the latter case answer the first
        tombstone passed, if any, so that it is reused. */
    static method FindEntry(entries: array<Entry>, capacity: nat, key: ObjString) returns (index: nat)
      requires capacity == entries.Length && 0 < capacity
      requires CountNonEmpty(entries[..]) < capacity
      ensures index < capacity
      ensures entries[index].key == key || entries[index].key == null
      ensures ProbeClear(entries[..], Home(key, capacity), Dist(Home(key, capacity), index, capacity))
      ensures entries[index].key == null && KeyReachable(entries[..], key) ==> KeyAbsent(entries[..], key)
      ensures IsTombstone(entries[index]) ==> exists j :: 0 <= j < capacity && IsEmptySlot(entries[j])
      ensures IsTombstone(entries[index]) ==>
        forall j :: 0 <= j < Dist(Home(key, capacity), index, capacity) ==> !IsTombstone(entries[Probe(Home(key, capacity), j, capacity)])
    {
      ghost var s := entries[..];
      ghost var h := Home(key, capacity);
      ProbeFindsEmpty(s, h);
      index := key.hash as int % capacity;
      var tombstone: Option<nat> := None;
      ghost var steps := 0;
      ghost var tdist := 0;
      while true
        invariant steps < capacity && index == Probe(h, steps, capacity)
        invariant ProbeClear(s, h, steps)
        invariant forall j :: 0 <= j < steps ==> s[Probe(h, j, capacity)].key != key
        invariant tombstone.Some? ==>
          tdist < steps && tombstone.value == Probe(h, tdist, capacity) && IsTombstone(s[tombstone.value])
        invariant forall j :: 0 <= j < (if tombstone.Some? then tdist else steps) ==> !IsTombstone(s[Probe(h, j, capacity)])
        decreases capacity - steps
      {
        var entry := entries[index];
        if entry.key == null {
          if entry.value.NilVal? {
            ProbeMissMeansAbsentIf(s, key, steps);
            if tombstone.Some? {
              DistOfProbe(h, tdist, capacity);
              return tombstone.value;
            }
            DistOfProbe(h, steps, capacity);
            return index;
          } else if tombstone.None? {
            tombstone := Some(index);
            tdist := steps;
          }
        } else if entry.key == key {
          DistOfProbe(h, steps, capacity);
          return index;
        }
        ProbeStep(h, steps, capacity);
        index := (index + 1) % capacity;
        steps := steps + 1;
      }
    }

    /** table_find_string: look for a live key with the given characters,
        length and hash, skipping tombstones, and stop at a truly empty
        slot. Interning relies on this to find an equal string. */
    method FindString(chars: seq<char>, length: nat, hash: uint32) returns (r: ObjString?)
      requires Valid() && length <= |chars|
      ensures r != null ==> r in Contents() && Matches(r, chars, length, hash)
      ensures r == null ==> forall k :: k in Contents() ==> !Matches(k, chars, length, hash)
    {
      if capacity == 0 {
        assert entries[..] == [];
        return null;
      }
      ghost var s := entries[..];
      ghost var h := hash as int % capacity;
      ProbeFindsEmpty(s, h);
      var index := hash as int % capacity;
      ghost var steps := 0;
      while true
        invariant steps < capacity && index == Probe(h, steps, capacity)
        invariant ProbeClear(s, h, steps)
        invariant forall j :: 0 <= j < steps ==>
          s[Probe(h, j, capacity)].key == null || !Matches(s[Probe(h, j, capacity)].key, chars, length, hash)
        decreases capacity - steps
      {
        var entry := entries[index];
        if entry.key == null {
          if entry.value.NilVal? {
            FindStringMiss(s, chars, length, hash, h, steps);
            return null;
          }
        } else if entry.key.length == length && entry.key.hash == hash
                  && entry.key.chars[..length] == chars[..length] {
          MapOfLookup(s, index);
          return entry.key;
        }
        FindStringStep(s, chars, length, hash, h, steps);
        index := (index + 1) % capacity;
        steps := steps + 1;
      }
    }
  }

  /** The miss case of find_entry, for a key that may or may not be
      reachable. */
  lemma ProbeMissMeansAbsentIf(s: seq<Entry>, key: ObjString, steps: nat)
    requires 0 < |s| && steps < |s|
    requires IsEmptySlot(s[Probe(Home(key, |s|), steps, |s|)])
    requires forall j :: 0 <= j < steps ==> s[Probe(Home(key, |s|), j, |s|)].key != key
    ensures KeyReachable(s, key) ==> KeyAbsent(s, key)
  {
    if KeyReachable(s, key) {
      ProbeMissMeansAbsent(s, key, steps);
    }
  }
}
