/** Two string loops of the wire boundary, each against the code points and the UTF-8 encoding of its text. */
module TextChecks {
  import opened Options
  import opened Unicode

  predicate WellFormed(t: Text) { Points(t).Some? }

  /** How many units the code point at the front takes; 0 when a surrogate stands alone there. */
  function Front(t: Text): nat
    requires t != []
  {
    if IsHigh(t[0]) then if |t| > 1 && IsLow(t[1]) then 2 else 0
    else if IsLow(t[0]) then 0 else 1
  }

  function First(t: Text): Scalar
    requires t != [] && Front(t) > 0
  {
    if Front(t) == 2 then Pair(t[0], t[1]) else t[0]
  }

  /** Reading one code point splits the text there. */
  lemma FrontSplits(t: Text)
    requires t != []
    ensures Front(t) == 0 ==> !WellFormed(t)
    ensures Front(t) > 0 ==> Front(t) <= |t| && (WellFormed(t) <==> WellFormed(t[Front(t)..]))
    ensures Front(t) > 0 && WellFormed(t) ==> Points(t).value == [First(t)] + Points(t[Front(t)..]).value
  {
  }

  function Utf8Size(t: Text): nat {
    if WellFormed(t) then |Utf8All(Points(t).value)| else 0
  }

  function Count(t: Text): nat {
    if WellFormed(t) then |Points(t).value| else 0
  }

  lemma SizeSplits(t: Text)
    requires t != [] && Front(t) > 0 && WellFormed(t)
    ensures Front(t) <= |t| && WellFormed(t[Front(t)..])
    ensures Utf8Size(t) == |Utf8(First(t))| + Utf8Size(t[Front(t)..])
    ensures Count(t) == 1 + Count(t[Front(t)..])
  {
    FrontSplits(t);
    var rest := Points(t[Front(t)..]).value;
    assert ([First(t)] + rest)[1..] == rest;
  }

  /** A well-formed text has at most as many code points as units, at most twice as many units, and no fewer bytes. */
  lemma {:induction false} UnitsBound(t: Text)
    requires WellFormed(t)
    ensures Count(t) <= |t| <= 2 * Count(t)
    ensures |t| <= Utf8Size(t)
    decreases |t|
  {
    if t == [] {
    } else {
      FrontSplits(t);
      SizeSplits(t);
      UnitsBound(t[Front(t)..]);
    }
  }

  /** `charCodeAt`, which yields no number past the end. */
  function UnitAt(t: Text, i: nat): Option<Unit> { if i < |t| then Some(t[i]) else None }

  predicate Between(u: Option<Unit>, low: int, high: int) { u.Some? && low <= u.value <= high }

  /** Accepts exactly the well-formed texts whose number of code points lies between the bounds. */
  method WireString(t: Text, minimum: nat, maximum: nat) returns (ok: bool)
    ensures ok <==> WellFormed(t) && minimum <= Count(t) <= maximum
  {
    if |t| < minimum || |t| > maximum * 2 {
      if WellFormed(t) { UnitsBound(t); }
      return false;
    }
    var count, index := 0, 0;
    while index < |t|
      invariant index <= |t| && count <= maximum
      invariant WellFormed(t) <==> WellFormed(t[index..])
      invariant WellFormed(t) ==> Count(t) == count + Count(t[index..])
    {
      ghost var rest := t[index..];
      FrontSplits(rest);
      if WellFormed(rest) { SizeSplits(rest); }
      ghost var next := index + Front(rest);
      assert Front(rest) > 0 ==> t[next..] == rest[Front(rest)..];
      var code := t[index];
      if 0xd800 <= code <= 0xdbff {
        if !Between(UnitAt(t, index + 1), 0xdc00, 0xdfff) { return false; }
        index := index + 1;
      } else if 0xdc00 <= code <= 0xdfff {
        return false;
      }
      count := count + 1;
      index := index + 1;
      assert index == next;
      if count > maximum { return false; }
    }
    assert t[index..] == [];
    return count >= minimum;
  }

  /** `codePointAt`: a lone surrogate is its own code point. */
  function PointAt(t: Text, i: nat): int
    requires i < |t|
  {
    if IsHigh(t[i]) && i + 1 < |t| && IsLow(t[i + 1]) then Pair(t[i], t[i + 1]) else t[i]
  }

  /** Accepts exactly the well-formed texts whose UTF-8 form is within the bound. */
  method IsCsvText(t: Text, maximumBytes: nat) returns (ok: bool)
    ensures ok <==> WellFormed(t) && Utf8Size(t) <= maximumBytes
  {
    if |t| > maximumBytes {
      if WellFormed(t) { UnitsBound(t); }
      return false;
    }
    var bytes, index := 0, 0;
    while index < |t|
      invariant index <= |t| && bytes <= maximumBytes
      invariant WellFormed(t) <==> WellFormed(t[index..])
      invariant WellFormed(t) ==> Utf8Size(t) == bytes + Utf8Size(t[index..])
    {
      ghost var rest := t[index..];
      FrontSplits(rest);
      if WellFormed(rest) { SizeSplits(rest); }
      ghost var next := index + Front(rest);
      assert Front(rest) > 0 ==> t[next..] == rest[Front(rest)..];
      var point := PointAt(t, index);
      if 0xd800 <= point <= 0xdfff { return false; }
      bytes := bytes + if point <= 0x7f then 1 else if point <= 0x7ff then 2 else if point <= 0xffff then 3 else 4;
      if bytes > maximumBytes { return false; }
      if point > 0xffff { index := index + 1; }
      index := index + 1;
      assert index == next;
    }
    assert t[index..] == [];
    return true;
  }
}
