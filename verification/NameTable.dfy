/** The table of names: strings stored once each, found by double hashing. */
module NameTables {
  import opened Arith
  import opened Bits
  import opened Options
  import opened Primes

  const NAME_HASH_PRIME: nat := 16381

  lemma SomeDivisors(d: nat)
    requires 2 <= d < 128
    ensures NAME_HASH_PRIME % d != 0
  {
  }

  lemma PrimeSize()
    ensures Prime(NAME_HASH_PRIME)
  {
    hide Prime;
    forall d | 2 <= d < 128 ensures !Divides(d, NAME_HASH_PRIME) { SomeDivisors(d); }
    NoSmallDivisor(NAME_HASH_PRIME, 127);
  }

  // ---------------------------------------------------------------- the hash

  predicate Ascii(key: seq<byte>) { forall i :: 0 <= i < |key| ==> 0 < key[i] < 128 }

  /** What character `i` adds. */
  function HashTerm(key: seq<byte>, i: nat): nat
    requires 1 <= i < |key|
  {
    (key[i] as nat + key[i - 1] as nat) * Pow2((key[i] * i) % 24)
  }

  /** The hash of the first `n` characters. */
  function HashSum(key: seq<byte>, n: nat): nat
    requires n <= |key|
  {
    if n == 0 then 0 else if n == 1 then key[0] else HashSum(key, n - 1) + HashTerm(key, n - 1)
  }

  const ULONG: nat := 0x1_0000_0000_0000_0000
  const UINT: nat := 0x1_0000_0000

  function HashNum(key: seq<byte>): nat { HashSum(key, |key|) % ULONG }

  function FirstProbe(key: seq<byte>, size: nat): nat
    requires size > 1
  {
    HashNum(key) % UINT % size
  }

  function ProbeStep(key: seq<byte>, size: nat): nat
    requires size > 1
  {
    1 + HashNum(key) % (size - 1)
  }

  method MakeHash(key: seq<byte>, size: nat) returns (start: nat, decrement: nat)
    requires Ascii(key) && size > 1
    ensures start == FirstProbe(key, size) && decrement == ProbeStep(key, size)
  {
    hide Pow2, HashTerm;
    var hashNum: nat := if |key| > 0 then key[0] else 0;
    var i := 1;
    while i < |key|
      invariant 1 <= i && (i <= |key| || (|key| == 0 && i == 1))
      invariant hashNum == HashSum(key, if i <= |key| then i else 0) % ULONG
    {
      AddMod(HashSum(key, i), HashTerm(key, i), ULONG);
      hashNum := (hashNum + HashTerm(key, i)) % ULONG;
      i := i + 1;
    }
    start, decrement := hashNum % UINT % size, 1 + hashNum % (size - 1);
  }

  // ---------------------------------------------------------------- the probe sequence

  /** Probe `k` of a sequence that starts at `start` and goes down by `dec`, modulo `p`. */
  function Probe(start: nat, dec: nat, p: nat, k: nat): (a: nat)
    requires 0 < dec < p
    ensures a < p
  {
    (start + k * (p - dec)) % p
  }

  /** Subtract, and add the size when that went below zero. */
  function NextProbe(a: nat, dec: nat, p: nat): nat
    requires a < p && 0 < dec < p
  {
    if a >= dec then a - dec else a + p - dec
  }

  lemma NextProbeIs(start: nat, dec: nat, p: nat, k: nat)
    requires 0 < dec < p
    ensures NextProbe(Probe(start, dec, p, k), dec, p) == Probe(start, dec, p, k + 1)
  {
    var x, a := start + k * (p - dec), Probe(start, dec, p, k);
    Distribute(k, 1, p - dec);
    AddMod(x, p - dec, p);
    if a >= dec { ModUnique(a + (p - dec), p, 1, a - dec); } else { SmallMod(a + (p - dec), p); }
  }

  /** A prime does not divide the product of two smaller numbers. */
  lemma {:induction false} NoZeroProduct(p: nat, d: nat, k: nat)
    requires Prime(p) && 0 < d < p && 0 < k < p
    ensures (k * d) % p != 0
    decreases k
  {
    hide Prime;
    if k == 1 {
      SmallMod(d, p);
    } else {
      var q, r := p / k, p % k;
      PrimeRemainder(p, k);
      NoZeroProduct(p, d, r);
      if (k * d) % p == 0 {
        RemainderProduct(p, d, k, q, r);
      }
    }
  }

  lemma PrimeRemainder(p: nat, k: nat)
    requires Prime(p) && 2 <= k < p
    ensures p % k > 0
  {
    assert !Divides(k, p);
  }

  lemma RemainderProduct(p: nat, d: nat, k: nat, q: nat, r: nat)
    requires p > 0 && p == k * q + r && (k * d) % p == 0
    ensures (r * d) % p == 0
  {
    var m := (k * d) / p;
    assert k * d == p * m;
    calc {
      r * d;
      (p - k * q) * d;
      { Distribute(p, -(k * q), d); assert (-(k * q)) * d == -((k * q) * d); }
      p * d - (k * q) * d;
      { Shuffle(k, q, d); }
      p * d - (k * d) * q;
      p * d - (p * m) * q;
      { assert (p * m) * q == p * (m * q); }
      p * d - p * (m * q);
      { Distribute(d, -(m * q), p); assert (-(m * q)) * p == -((m * q) * p); }
      p * (d - m * q);
    }
    ModUnique(r * d, p, d - m * q, 0);
  }

  lemma SameRemainder(a: nat, b: nat, p: nat)
    requires p > 0 && a <= b && a % p == b % p
    ensures (b - a) % p == 0
  {
    assert a == p * (a / p) + a % p && b == p * (b / p) + b % p;
    Distribute(b / p, -(a / p), p);
    ModUnique(b - a, p, b / p - a / p, 0);
  }

  /** Within `p` probes no slot comes up twice. */
  lemma ProbesDistinct(start: nat, dec: nat, p: nat, i: nat, j: nat)
    requires Prime(p) && 0 < dec < p && i < j < p
    ensures Probe(start, dec, p, i) != Probe(start, dec, p, j)
  {
    hide Prime;
    NoZeroProduct(p, p - dec, j - i);
    if Probe(start, dec, p, i) == Probe(start, dec, p, j) {
      EqualProbes(start, p - dec, p, i, j);
    }
  }

  lemma EqualProbes(start: nat, s: nat, p: nat, i: nat, j: nat)
    requires p > 0 && i < j && (start + i * s) % p == (start + j * s) % p
    ensures ((j - i) * s) % p == 0
  {
    Distribute(j - i, i, s);
    MulMono(i, j, s);
    SameRemainder(start + i * s, start + j * s, p);
  }

  ghost function Below(n: nat): (s: set<nat>)
    ensures |s| == n && forall a: nat :: a in s <==> a < n
  {
    if n == 0 then {} else Below(n - 1) + {n - 1}
  }

  ghost function Visited(start: nat, dec: nat, p: nat, n: nat): set<nat>
    requires 0 < dec < p
  {
    set k: nat | k < n :: Probe(start, dec, p, k)
  }

  lemma {:induction false} VisitedSize(start: nat, dec: nat, p: nat, n: nat)
    requires Prime(p) && 0 < dec < p && n <= p
    ensures |Visited(start, dec, p, n)| == n
    decreases n
  {
    hide Prime, Probe;
    if n == 0 {
      assert Visited(start, dec, p, 0) == {};
    } else {
      VisitedSize(start, dec, p, n - 1);
      var x := Probe(start, dec, p, n - 1);
      assert Visited(start, dec, p, n) == Visited(start, dec, p, n - 1) + {x};
      forall k: nat | k < n - 1 ensures Probe(start, dec, p, k) != x { ProbesDistinct(start, dec, p, k, n - 1); }
    }
  }

  lemma {:induction false} SubsetOfSameSize(a: set<nat>, b: set<nat>)
    requires a <= b && |a| == |b|
    ensures a == b
  {
    if a != {} {
      var x :| x in a;
      SubsetOfSameSize(a - {x}, b - {x});
    } else {
      assert b == {};
    }
  }

  /** Every slot is reached. */
  lemma ProbeReaches(start: nat, dec: nat, p: nat, a: nat) returns (k: nat)
    requires Prime(p) && 0 < dec < p && a < p
    ensures k < p && Probe(start, dec, p, k) == a
  {
    hide Prime, Probe;
    VisitedSize(start, dec, p, p);
    SubsetOfSameSize(Visited(start, dec, p, p), Below(p));
    assert a in Visited(start, dec, p, p);
    k :| 0 <= k < p && Probe(start, dec, p, k) == a;
  }

  // ---------------------------------------------------------------- the table

  /** Slot of probe `k` for a key. */
  function SlotOf(key: seq<byte>, k: nat): (a: nat)
    ensures a < NAME_HASH_PRIME
  {
    Probe(FirstProbe(key, NAME_HASH_PRIME), ProbeStep(key, NAME_HASH_PRIME), NAME_HASH_PRIME, k)
  }

  type Slots = seq<Option<seq<byte>>>

  /** The first `k` probes for the key hit other keys. */
  ghost predicate Blocked(t: Slots, key: seq<byte>, k: nat) {
    |t| >= NAME_HASH_PRIME && forall j: nat :: j < k ==> t[SlotOf(key, j)].Some? && t[SlotOf(key, j)] != Some(key)
  }

  /** Probe `k` for the key finds it in slot `a`. */
  ghost predicate FoundAt(t: Slots, key: seq<byte>, a: nat, k: nat) {
    k < NAME_HASH_PRIME && SlotOf(key, k) == a && Blocked(t, key, k)
  }

  /** Every stored key is where probing finds it. */
  ghost predicate TableOk(t: Slots) {
    |t| >= NAME_HASH_PRIME &&
    forall a: nat :: a < NAME_HASH_PRIME && t[a].Some? ==> exists k: nat :: FoundAt(t, t[a].value, a, k)
  }

  /** A key is stored once. */
  lemma StoredOnce(t: Slots, a: nat, b: nat)
    requires TableOk(t) && a < NAME_HASH_PRIME && b < NAME_HASH_PRIME && t[a].Some? && t[a] == t[b]
    ensures a == b
  {
    hide SlotOf;
    var j: nat :| FoundAt(t, t[a].value, a, j);
    var k: nat :| FoundAt(t, t[b].value, b, k);
  }

  /** Probing finds the key or a free slot, if there is one. */
  lemma ProbeEnds(t: Slots, key: seq<byte>, k: nat, a: nat)
    requires Blocked(t, key, k) && a < NAME_HASH_PRIME && (t[a].None? || t[a] == Some(key))
    ensures k < NAME_HASH_PRIME
  {
    hide Prime;
    PrimeSize();
    var j := ProbeReaches(FirstProbe(key, NAME_HASH_PRIME), ProbeStep(key, NAME_HASH_PRIME), NAME_HASH_PRIME, a);
    assert SlotOf(key, j) == a;
  }

  /** Probing for a key ends if and only if it is stored or a slot is free. */
  lemma ProbeEndsIff(t: Slots, key: seq<byte>)
    requires |t| >= NAME_HASH_PRIME
    ensures (exists k: nat :: !Blocked(t, key, k))
            <==> exists a :: 0 <= a < NAME_HASH_PRIME && (t[a].None? || t[a] == Some(key))
  {
    hide SlotOf;
    if a :| 0 <= a < NAME_HASH_PRIME && (t[a].None? || t[a] == Some(key)) {
      if Blocked(t, key, NAME_HASH_PRIME) { ProbeEnds(t, key, NAME_HASH_PRIME, a); }
    }
    if k: nat :| !Blocked(t, key, k) {
      var j: nat :| j < k && (t[SlotOf(key, j)].None? || t[SlotOf(key, j)] == Some(key));
    }
  }

  /** Filling a free slot hides nothing. */
  lemma TableGrows(t: Slots, key: seq<byte>, a: nat, k: nat)
    requires TableOk(t) && FoundAt(t, key, a, k) && t[a].None?
    ensures TableOk(t[a := Some(key)])
  {
    hide SlotOf;
    var t' := t[a := Some(key)];
    forall b: nat | b < NAME_HASH_PRIME && t'[b].Some? ensures exists j: nat :: FoundAt(t', t'[b].value, b, j) {
      if b == a {
        assert FoundAt(t', key, a, k);
      } else {
        var j: nat :| FoundAt(t, t[b].value, b, j);
        assert FoundAt(t', t[b].value, b, j);
      }
    }
  }

  function FreeSlots(t: Slots, n: nat): nat
    requires n <= |t|
  {
    if n == 0 then 0 else FreeSlots(t, n - 1) + (if t[n - 1].None? then 1 else 0)
  }

  lemma {:induction false} SomeFree(t: Slots, n: nat) returns (a: nat)
    requires n <= |t| && FreeSlots(t, n) > 0
    ensures a < n && t[a].None?
  {
    if t[n - 1].None? { a := n - 1; } else { a := SomeFree(t, n - 1); }
  }

  lemma {:induction false} FillOne(t: Slots, n: nat, a: nat, key: seq<byte>)
    requires n <= |t| && a < |t|
    ensures FreeSlots(t[a := Some(key)], n) >= FreeSlots(t, n) - (if a < n then 1 else 0)
  {
    if n > 0 { FillOne(t, n - 1, a, key); }
  }

  /** The names among `keys` that are not stored yet. */
  ghost function NewNames(t: Slots, keys: seq<seq<byte>>): set<seq<byte>> {
    set k | k in keys && !Stored(t, k)
  }

  ghost predicate Stored(t: Slots, key: seq<byte>) {
    exists a :: 0 <= a < NAME_HASH_PRIME && a < |t| && t[a] == Some(key)
  }

  /** A search for a stored name changes nothing; one for a new name takes a slot, and there is one name
      less to store. */
  lemma NamesStep(t: Slots, keys: seq<seq<byte>>, a: nat)
    requires TableOk(t) && keys != [] && a < NAME_HASH_PRIME && TableOk(t[a := Some(keys[0])])
    requires t[a].None? || t[a] == Some(keys[0])
    requires FreeSlots(t, NAME_HASH_PRIME) >= |NewNames(t, keys)|
    ensures var t' := t[a := Some(keys[0])]; FreeSlots(t', NAME_HASH_PRIME) >= |NewNames(t', keys[1..])|
  {
    hide TableOk, FreeSlots;
    TableSize(t);
    var key, rest := keys[0], keys[1..];
    var t' := t[a := Some(key)];
    FewerNames(t, t', rest);
    assert NewNames(t, rest) <= NewNames(t, keys);
    if t[a] == Some(key) {
      assert t' == t;
      SubsetSmaller(NewNames(t, rest), NewNames(t, keys));
    } else {
      FillOne(t, NAME_HASH_PRIME, a, key);
      if Stored(t, key) {
        var b :| 0 <= b < NAME_HASH_PRIME && t[b] == Some(key);
        StoredOnce(t', a, b);
        assert false;
      }
      assert t'[a] == Some(key);
      assert NewNames(t', rest) <= NewNames(t, keys) - {key};
      SubsetSmaller(NewNames(t', rest), NewNames(t, keys) - {key});
    }
  }

  lemma TableSize(t: Slots)
    requires TableOk(t)
    ensures |t| >= NAME_HASH_PRIME
  {
  }

  lemma FewerNames(t: Slots, t': Slots, keys: seq<seq<byte>>)
    requires |t| == |t'| && forall a :: 0 <= a < |t| && t[a].Some? ==> t'[a] == t[a]
    ensures NewNames(t', keys) <= NewNames(t, keys)
  {
    forall k | Stored(t, k) ensures Stored(t', k) {
      var a :| 0 <= a < NAME_HASH_PRIME && a < |t| && t[a] == Some(k);
      assert t'[a] == Some(k);
    }
  }

  lemma {:induction false} SubsetSmaller<T>(a: set<T>, b: set<T>)
    requires a <= b
    ensures |a| <= |b|
    decreases a
  {
    if a != {} {
      var x :| x in a;
      SubsetSmaller(a - {x}, b - {x});
    }
  }

  /** A table with free slots for all new names has one for the next, or that is stored. */
  lemma RoomForNext(t: Slots, keys: seq<seq<byte>>) returns (a: nat)
    requires |t| >= NAME_HASH_PRIME && keys != [] && FreeSlots(t, NAME_HASH_PRIME) >= |NewNames(t, keys)|
    ensures a < NAME_HASH_PRIME && (t[a].None? || t[a] == Some(keys[0]))
  {
    hide FreeSlots;
    if Stored(t, keys[0]) {
      a :| 0 <= a < NAME_HASH_PRIME && t[a] == Some(keys[0]);
    } else {
      assert keys[0] in NewNames(t, keys);
      a := SomeFree(t, NAME_HASH_PRIME);
    }
  }

  /** Free slots as a set. */
  ghost function FreeSet(t: Slots, n: nat): set<nat>
    requires n <= |t|
  {
    set a: nat | a < n && t[a].None?
  }

  lemma {:induction false} FreeSetSize(t: Slots, n: nat)
    requires n <= |t|
    ensures |FreeSet(t, n)| == FreeSlots(t, n)
  {
    if n > 0 {
      FreeSetSize(t, n - 1);
      assert FreeSet(t, n) == FreeSet(t, n - 1) + (if t[n - 1].None? then {n - 1} else {});
    }
  }

  /** Different names take different slots. */
  lemma {:induction false} OneSlotEach(t: Slots, names: set<seq<byte>>, free: set<nat>)
    requires forall k :: k in names ==> exists a :: a in free && a < |t| && t[a] == Some(k)
    ensures |names| <= |free|
    decreases names
  {
    if names != {} {
      var k :| k in names;
      var a :| a in free && a < |t| && t[a] == Some(k);
      forall q | q in names - {k} ensures exists b :: b in free - {a} && b < |t| && t[b] == Some(q) {
        var b :| b in free && b < |t| && t[b] == Some(q);
        assert b in free - {a};
      }
      OneSlotEach(t, names - {k}, free - {a});
    }
  }

  /** No table can keep what is stored and take the new names without a free slot for each. */
  lemma NamesNeedSlots(t: Slots, t': Slots, keys: seq<seq<byte>>)
    requires NAME_HASH_PRIME <= |t| == |t'| && (forall a :: 0 <= a < |t| && t[a].Some? ==> t'[a] == t[a])
    requires forall i :: 0 <= i < |keys| ==> Stored(t', keys[i])
    ensures |NewNames(t, keys)| <= FreeSlots(t, NAME_HASH_PRIME)
  {
    hide FreeSlots;
    var free := FreeSet(t, NAME_HASH_PRIME);
    FreeSetSize(t, NAME_HASH_PRIME);
    forall k | k in NewNames(t, keys) ensures exists a :: a in free && a < |t'| && t'[a] == Some(k) {
      var a :| 0 <= a < NAME_HASH_PRIME && a < |t'| && t'[a] == Some(k);
      assert a in free;
    }
    OneSlotEach(t', NewNames(t, keys), free);
  }

  class NameTable {
    const slots: array<Option<seq<byte>>>   // name_hashtable

    ghost predicate Valid()
      reads slots
    {
      slots.Length == NAME_HASH_PRIME + 1 && TableOk(slots[..])
    }

    constructor ()
      ensures Valid() && fresh(slots) && forall a :: 0 <= a < slots.Length ==> slots[a] == None
    {
      slots := new Option<seq<byte>>[NAME_HASH_PRIME + 1](_ => None);
    }

    /** The slot of the key, which is added when it is not there. */
    method Search(key: seq<byte>) returns (address: nat)
      requires Valid() && Ascii(key)
      requires exists a :: 0 <= a < NAME_HASH_PRIME && (slots[a] == None || slots[a] == Some(key))
      modifies slots
      ensures Valid() && address < NAME_HASH_PRIME && slots[address] == Some(key)
      ensures slots[..] == old(slots[..])[address := Some(key)] && old(slots[address]) in {None, Some(key)}
    {
      hide SlotOf, TableOk;
      ghost var t := slots[..];
      var decrement;
      address, decrement := MakeHash(key, NAME_HASH_PRIME);
      ghost var a :| 0 <= a < NAME_HASH_PRIME && (t[a] == None || t[a] == Some(key));
      ghost var k := 0;
      FirstSlot(key);
      while slots[address] != None
        invariant address < NAME_HASH_PRIME && slots[..] == t && address == SlotOf(key, k)
        invariant Blocked(t, key, k) && k < NAME_HASH_PRIME
        decreases NAME_HASH_PRIME - k
      {
        if slots[address] == Some(key) {
          assert t[address := Some(key)] == t;
          return;
        }
        NextSlot(key, k);
        ProbeEnds(t, key, k + 1, a);
        address := if address >= decrement then address - decrement else address + NAME_HASH_PRIME - decrement;
        k := k + 1;
      }
      TableGrows(t, key, address, k);
      slots[address] := Some(key);
      assert slots[..] == t[address := Some(key)];
    }

    /** Look up several names: equal names, and only those, get the same number. */
    method SearchAll(keys: seq<seq<byte>>) returns (numbers: seq<nat>)
      requires Valid() && (forall i :: 0 <= i < |keys| ==> Ascii(keys[i]))
      requires FreeSlots(slots[..], NAME_HASH_PRIME) >= |NewNames(slots[..], keys)|
      modifies slots
      ensures Valid() && |numbers| == |keys|
      ensures forall i :: 0 <= i < |keys| ==> numbers[i] < NAME_HASH_PRIME && slots[numbers[i]] == Some(keys[i])
      ensures forall i, j :: 0 <= i < |keys| && 0 <= j < |keys| ==> (numbers[i] == numbers[j] <==> keys[i] == keys[j])
      ensures forall a :: 0 <= a < NAME_HASH_PRIME && old(slots[a]).Some? ==> slots[a] == old(slots[a])
    {
      hide SlotOf, TableOk, NewNames, FreeSlots;
      numbers := [];
      assert keys[0..] == keys;
      for n := 0 to |keys|
        invariant Valid() && |numbers| == n
        invariant FreeSlots(slots[..], NAME_HASH_PRIME) >= |NewNames(slots[..], keys[n..])|
        invariant forall i :: 0 <= i < n ==> numbers[i] < NAME_HASH_PRIME && slots[numbers[i]] == Some(keys[i])
        invariant forall a :: 0 <= a < NAME_HASH_PRIME && old(slots[a]).Some? ==> slots[a] == old(slots[a])
      {
        ghost var t := slots[..];
        TableSize(t);
        ghost var room := RoomForNext(t, keys[n..]);
        assert slots[room] == None || slots[room] == Some(keys[n]);
        var number := Search(keys[n]);
        NamesStep(t, keys[n..], number);
        assert keys[n..][1..] == keys[n + 1..];
        numbers := numbers + [number];
      }
      forall i, j | 0 <= i < |keys| && 0 <= j < |keys| ensures numbers[i] == numbers[j] <==> keys[i] == keys[j] {
        if keys[i] == keys[j] { StoredOnce(slots[..], numbers[i], numbers[j]); }
      }
    }
  }

  lemma FirstSlot(key: seq<byte>)
    ensures SlotOf(key, 0) == FirstProbe(key, NAME_HASH_PRIME)
  {
  }

  lemma NextSlot(key: seq<byte>, k: nat)
    ensures SlotOf(key, k + 1) == NextProbe(SlotOf(key, k), ProbeStep(key, NAME_HASH_PRIME), NAME_HASH_PRIME)
  {
    hide Probe;
    NextProbeIs(FirstProbe(key, NAME_HASH_PRIME), ProbeStep(key, NAME_HASH_PRIME), NAME_HASH_PRIME, k);
  }
}
