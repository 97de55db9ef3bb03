/** The length and distance tables of ct_init, against the tables of section 3.2.5 of RFC 1951. */
module Tables {
  import opened Bits

  const L_CODES := 286
  const D_CODES := 30
  const BL_CODES := 19
  const LITERALS := 256
  const END_BLOCK := 256

  const EXTRA_LBITS: seq<nat> := [0, 0, 0, 0, 0, 0, 0, 0, 1, 1, 1, 1, 2, 2, 2, 2, 3, 3, 3, 3, 4, 4, 4, 4, 5, 5, 5, 5, 0]
  const EXTRA_DBITS: seq<nat> := [0, 0, 0, 0, 1, 1, 2, 2, 3, 3, 4, 4, 5, 5, 6, 6, 7, 7, 8, 8, 9, 9, 10, 10, 11, 11,
    12, 12, 13, 13]
  const EXTRA_BLBITS: seq<nat> := [0, 0, 0, 0, 0, 0, 0, 0, 0, 0, 0, 0, 0, 0, 0, 0, 2, 3, 7]
  const BL_ORDER: seq<nat> := [16, 17, 18, 0, 8, 7, 9, 6, 10, 5, 11, 4, 12, 3, 13, 2, 14, 1, 15]

  /** Section 3.2.5 of RFC 1951: first match length of the codes 257 to 285 ... */
  const LENGTH_BASE: seq<nat> :=
    [3, 4, 5, 6, 7, 8, 9, 10, 11, 13, 15, 17, 19, 23, 27, 31, 35, 43, 51, 59, 67, 83, 99, 115, 131, 163, 195, 227, 258]
  /** ... and first distance of the codes 0 to 29. */
  const DIST_BASE: seq<nat> :=
    [1, 2, 3, 4, 5, 7, 9, 13, 17, 25, 33, 49, 65, 97, 129, 193, 257, 385, 513, 769, 1025, 1537, 2049, 3073, 4097, 6145,
     8193, 12289, 16385, 24577]

  // ---------------------------------------------------------------- intervals of values

  /** First value of code `c` when code `i` covers 2^extra[i] values. */
  function Start(extra: seq<nat>, c: nat): nat
    requires c <= |extra|
  {
    if c == 0 then 0 else Start(extra, c - 1) + Pow2(extra[c - 1])
  }

  /** The last code up to `c` that starts at or below `v`. */
  function FindCode(extra: seq<nat>, v: nat, c: nat): (r: nat)
    requires c < |extra|
    ensures r <= c && Start(extra, r) <= v
    ensures r < c ==> v < Start(extra, r + 1)
  {
    if c == 0 || Start(extra, c) <= v then c else FindCode(extra, v, c - 1)
  }

  lemma {:induction false} StartMono(extra: seq<nat>, a: nat, b: nat)
    requires a <= b <= |extra|
    ensures Start(extra, a) + (b - a) <= Start(extra, b)
  {
    if a < b { StartMono(extra, a, b - 1); }
  }

  lemma FindUnique(extra: seq<nat>, v: nat, c: nat, r: nat)
    requires r <= c < |extra| && Start(extra, r) <= v < Start(extra, r + 1)
    ensures FindCode(extra, v, c) == r
  {
    var f := FindCode(extra, v, c);
    if f < r {
      StartMono(extra, f + 1, r);
    } else if f > r {
      StartMono(extra, r + 1, f);
    }
  }

  /** Code of a match length (less 3); 255 has its own code without extra bits. */
  function LengthCode(lc: nat): nat
    requires lc < 256
  {
    if lc == 255 then 28 else FindCode(EXTRA_LBITS, lc, 27)
  }

  /** Code of a distance (less 1). */
  function DistCode(d: nat): nat
    requires d < 32768
  {
    FindCode(EXTRA_DBITS, d, 29)
  }

  lemma StartStep(extra: seq<nat>, c: nat)
    requires c <= |extra|
    ensures Start(extra, c) == if c == 0 then 0 else Start(extra, c - 1) + Pow2(extra[c - 1])
  {
  }

  lemma LengthTableStep(c: nat)
    requires 1 <= c < 28
    ensures LENGTH_BASE[c] == LENGTH_BASE[c - 1] + Pow2(EXTRA_LBITS[c - 1])
  {
    hide Pow2;
    Pow2Values();
  }

  lemma DistTableStep(c: nat)
    requires 1 <= c < 30
    ensures DIST_BASE[c] == DIST_BASE[c - 1] + Pow2(EXTRA_DBITS[c - 1])
  {
    hide Pow2;
    Pow2Values();
  }

  /** The base tables of the RFC are the running sums of ct_init. */
  lemma {:induction false} LengthStart(c: nat)
    requires c < 28
    ensures LENGTH_BASE[c] == 3 + Start(EXTRA_LBITS, c)
  {
    hide Pow2, Start;
    StartStep(EXTRA_LBITS, c);
    if c > 0 {
      LengthStart(c - 1);
      LengthTableStep(c);
    }
  }

  lemma {:induction false} DistStart(c: nat)
    requires c < 30
    ensures DIST_BASE[c] == 1 + Start(EXTRA_DBITS, c)
  {
    hide Pow2, Start;
    StartStep(EXTRA_DBITS, c);
    if c > 0 {
      DistStart(c - 1);
      DistTableStep(c);
    }
  }

  lemma Totals()
    ensures Start(EXTRA_LBITS, 28) == 256 && Start(EXTRA_DBITS, 16) == 256 && Start(EXTRA_DBITS, 30) == 32768
  {
    hide Pow2, Start;
    Pow2Values();
    LengthStart(27);
    StartStep(EXTRA_LBITS, 28);
    DistStart(16);
    DistStart(29);
    StartStep(EXTRA_DBITS, 30);
  }

  // ---------------------------------------------------------------- ct_init

  method InitLengths(lengthCode: array<nat>, baseLength: array<nat>)
    requires lengthCode != baseLength && lengthCode.Length == 256 && baseLength.Length == 29
    modifies lengthCode, baseLength
    ensures forall lc :: 0 <= lc < 256 ==> lengthCode[lc] == LengthCode(lc)
    ensures forall c :: 0 <= c < 28 ==> baseLength[c] == Start(EXTRA_LBITS, c)
  {
    hide Pow2, Start, FindCode;
    Totals();
    StartStep(EXTRA_LBITS, 0);
    var length := 0;
    for code := 0 to 28
      invariant length == Start(EXTRA_LBITS, code)
      invariant forall lc :: 0 <= lc < length && lc < 256 ==> lengthCode[lc] == FindCode(EXTRA_LBITS, lc, 27)
      invariant forall c :: 0 <= c < code ==> baseLength[c] == Start(EXTRA_LBITS, c)
    {
      baseLength[code] := length;
      StartStep(EXTRA_LBITS, code + 1);
      StartMono(EXTRA_LBITS, code + 1, 28);
      for n := 0 to Pow2(EXTRA_LBITS[code])
        invariant length == Start(EXTRA_LBITS, code) + n
        invariant forall lc :: 0 <= lc < length && lc < 256 ==> lengthCode[lc] == FindCode(EXTRA_LBITS, lc, 27)
        invariant forall c :: 0 <= c <= code ==> baseLength[c] == Start(EXTRA_LBITS, c)
      {
        FindUnique(EXTRA_LBITS, length, 27, code);
        lengthCode[length] := code;
        length := length + 1;
      }
    }
    lengthCode[length - 1] := 28;
  }

  lemma Blocks(extra: nat)
    requires extra >= 7
    ensures Pow2(extra) == 128 * Pow2(extra - 7)
  {
    Pow2Add(7, extra - 7);
    Pow2Values();
  }

  lemma FarExtra(c: nat)
    requires 16 <= c < 30
    ensures EXTRA_DBITS[c] >= 7
  {
  }

  /** The upper half of the table is indexed by the top 8 bits of the distance. */
  ghost predicate FarDone(distCode: seq<nat>, hi: nat) {
    |distCode| == 512 && hi <= 32768 && forall d :: 256 <= d < hi ==> distCode[256 + d / 128] == DistCode(d)
  }

  lemma FarStep(dc: seq<nat>, dist: nat, code: nat)
    requires 2 <= dist < 256 && code < 30 && FarDone(dc, 128 * dist)
    requires Start(EXTRA_DBITS, code) <= 128 * dist && 128 * dist + 128 <= Start(EXTRA_DBITS, code + 1)
    ensures FarDone(dc[256 + dist := code], 128 * (dist + 1))
  {
    hide Start, FindCode;
    var t := dc[256 + dist := code];
    forall d | 256 <= d < 128 * (dist + 1) ensures t[256 + d / 128] == DistCode(d) {
      if d >= 128 * dist {
        FindUnique(EXTRA_DBITS, d, 29, code);
        assert d / 128 == dist;
      } else {
        assert d / 128 < dist;
      }
    }
  }

  method InitNear(distCode: array<nat>, baseDist: array<nat>) returns (dist: nat)
    requires distCode != baseDist && distCode.Length == 512 && baseDist.Length == 30
    modifies distCode, baseDist
    ensures dist == 256
    ensures forall d :: 0 <= d < 256 ==> distCode[d] == DistCode(d)
    ensures forall c :: 0 <= c < 16 ==> baseDist[c] == Start(EXTRA_DBITS, c)
  {
    hide Pow2, Start, FindCode;
    Totals();
    StartStep(EXTRA_DBITS, 0);
    dist := 0;
    for code := 0 to 16
      invariant dist == Start(EXTRA_DBITS, code)
      invariant forall d :: 0 <= d < dist && d < 256 ==> distCode[d] == DistCode(d)
      invariant forall c :: 0 <= c < code ==> baseDist[c] == Start(EXTRA_DBITS, c)
    {
      baseDist[code] := dist;
      StartStep(EXTRA_DBITS, code + 1);
      StartMono(EXTRA_DBITS, code + 1, 16);
      for n := 0 to Pow2(EXTRA_DBITS[code])
        invariant dist == Start(EXTRA_DBITS, code) + n
        invariant forall d :: 0 <= d < dist && d < 256 ==> distCode[d] == DistCode(d)
        invariant forall c :: 0 <= c <= code ==> baseDist[c] == Start(EXTRA_DBITS, c)
      {
        FindUnique(EXTRA_DBITS, dist, 29, code);
        distCode[dist] := code;
        dist := dist + 1;
      }
    }
  }

  method InitFar(distCode: array<nat>, baseDist: array<nat>)
    requires distCode != baseDist && distCode.Length == 512 && baseDist.Length == 30
    modifies distCode, baseDist
    ensures forall i :: 0 <= i < 256 ==> distCode[i] == old(distCode[i])
    ensures FarDone(distCode[..], 32768)
    ensures forall c :: 0 <= c < 30 ==> baseDist[c] == if c < 16 then old(baseDist[c]) else Start(EXTRA_DBITS, c)
  {
    hide Pow2, Start, FindCode, FarDone;
    Totals();
    var dist := 2;
    assert FarDone(distCode[..], 256) by { FarNone(distCode[..]); }
    for code := 16 to 30
      invariant 128 * dist == Start(EXTRA_DBITS, code) && dist >= 2
      invariant FarDone(distCode[..], 128 * dist)
      invariant forall i :: 0 <= i < 256 ==> distCode[i] == old(distCode[i])
      invariant forall c :: 0 <= c < 30 && (c < 16 || c >= code) ==> baseDist[c] == old(baseDist[c])
      invariant forall c :: 16 <= c < code ==> baseDist[c] == Start(EXTRA_DBITS, c)
    {
      baseDist[code] := dist * 128;
      StartStep(EXTRA_DBITS, code + 1);
      StartMono(EXTRA_DBITS, code + 1, 30);
      FarExtra(code);
      Blocks(EXTRA_DBITS[code]);
      ghost var first := dist;
      for n := 0 to Pow2(EXTRA_DBITS[code] - 7)
        invariant dist == first + n
        invariant FarDone(distCode[..], 128 * dist)
        invariant forall i :: 0 <= i < 256 ==> distCode[i] == old(distCode[i])
        invariant forall c :: 0 <= c < 30 && (c < 16 || c > code) ==> baseDist[c] == old(baseDist[c])
        invariant forall c :: 16 <= c <= code ==> baseDist[c] == Start(EXTRA_DBITS, c)
      {
        FarStep(distCode[..], dist, code);
        ghost var dc: seq<nat> := distCode[..];
        distCode[256 + dist] := code;
        assert distCode[..] == dc[256 + dist := code];
        dist := dist + 1;
      }
    }
  }

  lemma FarNone(dc: seq<nat>)
    requires |dc| == 512
    ensures FarDone(dc, 256)
  {
  }

  class CodeTables {
    const lengthCode: array<nat>
    const baseLength: array<nat>
    const distCode: array<nat>
    const baseDist: array<nat>

    ghost predicate Valid()
      reads lengthCode, baseLength, distCode, baseDist
    {
      && lengthCode.Length == 256 && baseLength.Length == 29 && distCode.Length == 512 && baseDist.Length == 30
      && (forall lc :: 0 <= lc < 256 ==> lengthCode[lc] == LengthCode(lc))
      && (forall c :: 0 <= c < 28 ==> baseLength[c] == Start(EXTRA_LBITS, c))
      && (forall d :: 0 <= d < 256 ==> distCode[d] == DistCode(d))
      && FarDone(distCode[..], 32768)
      && (forall c :: 0 <= c < 30 ==> baseDist[c] == Start(EXTRA_DBITS, c))
    }

    constructor ()
      ensures Valid() && fresh(lengthCode) && fresh(baseLength) && fresh(distCode) && fresh(baseDist)
    {
      lengthCode, baseLength := new nat[256](_ => 0), new nat[29](_ => 0);
      distCode, baseDist := new nat[512](_ => 0), new nat[30](_ => 0);
      new;
      InitLengths(lengthCode, baseLength);
      var dist := InitNear(distCode, baseDist);
      InitFar(distCode, baseDist);
    }

    /** D_CODE(dist) */
    method DCode(dist: nat) returns (code: nat)
      requires Valid() && dist < 32768
      ensures code == DistCode(dist)
    {
      hide FindCode, Start;
      if dist < 256 {
        code := distCode[dist];
      } else {
        assert distCode[..][256 + dist / 128] == DistCode(dist);
        code := distCode[256 + dist / 128];
      }
    }
  }

  lemma TableSizes()
    ensures |EXTRA_LBITS| == 29 && |EXTRA_DBITS| == 30 && EXTRA_LBITS[28] == 0
    ensures |LENGTH_BASE| == 29 && |DIST_BASE| == 30
  {
  }

  lemma ExtraSmall(c: nat)
    ensures c < 29 ==> EXTRA_LBITS[c] <= 5
    ensures c < 30 ==> EXTRA_DBITS[c] <= 13
  {
  }

  // ---------------------------------------------------------------- the tables against the RFC

  /** Length code and extra bits determine the match length, as in the table of the RFC. */
  lemma LengthDecodes(lc: nat)
    requires lc < 256
    ensures LengthCode(lc) <= 28
    ensures var c := LengthCode(lc);
            var x := if EXTRA_LBITS[c] == 0 then 0 else lc - Start(EXTRA_LBITS, c);
            0 <= x < Pow2(EXTRA_LBITS[c]) && LENGTH_BASE[c] + x == lc + 3
  {
    hide Pow2, Start;
    var c := LengthCode(lc);
    Totals();
    if lc == 255 {
      Pow2Values();
    } else {
      LengthStart(c);
      StartStep(EXTRA_LBITS, c + 1);
      if EXTRA_LBITS[c] == 0 { Pow2Values(); }
    }
  }

  /** Likewise for distances. */
  lemma DistDecodes(d: nat)
    requires d < 32768
    ensures DistCode(d) <= 29
    ensures var c := DistCode(d);
            var x := if EXTRA_DBITS[c] == 0 then 0 else d - Start(EXTRA_DBITS, c);
            0 <= x < Pow2(EXTRA_DBITS[c]) && DIST_BASE[c] + x == d + 1
  {
    hide Pow2, Start;
    var c := DistCode(d);
    Totals();
    DistStart(c);
    StartStep(EXTRA_DBITS, c + 1);
    if EXTRA_DBITS[c] == 0 { Pow2Values(); }
  }
}
