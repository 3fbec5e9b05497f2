/** UTF-16 texts as JavaScript holds them, possibly ill-formed, and their code points. */
module Unicode {
  import opened Options

  type Unit = u: int | 0 <= u < 0x10000

  type Text = seq<Unit>

  predicate IsHigh(u: int) { 0xd800 <= u <= 0xdbff }

  predicate IsLow(u: int) { 0xdc00 <= u <= 0xdfff }

  type Scalar = p: int | 0 <= p < 0x110000 && !(0xd800 <= p <= 0xdfff)

  function Pair(high: Unit, low: Unit): Scalar
    requires IsHigh(high) && IsLow(low)
  {
    0x10000 + (high - 0xd800) * 0x400 + (low - 0xdc00)
  }

  /** The code points of a text, unless a surrogate stands alone. */
  function Points(t: Text): Option<seq<Scalar>> {
    if t == [] then Some([])
    else if IsHigh(t[0]) then
      if |t| > 1 && IsLow(t[1]) && Points(t[2..]).Some? then Some([Pair(t[0], t[1])] + Points(t[2..]).value) else None
    else if IsLow(t[0]) || Points(t[1..]).None? then None
    else Some([t[0]] + Points(t[1..]).value)
  }

  /** UTF-8 of one code point, section 3 of RFC 3629. */
  function Utf8(p: Scalar): seq<nat> {
    if p < 0x80 then [p]
    else if p < 0x800 then [0xc0 + p / 0x40, 0x80 + p % 0x40]
    else if p < 0x10000 then [0xe0 + p / 0x1000, 0x80 + p / 0x40 % 0x40, 0x80 + p % 0x40]
    else [0xf0 + p / 0x40000, 0x80 + p / 0x1000 % 0x40, 0x80 + p / 0x40 % 0x40, 0x80 + p % 0x40]
  }

  function Utf8All(ps: seq<Scalar>): seq<nat> {
    if ps == [] then [] else Utf8(ps[0]) + Utf8All(ps[1..])
  }

  /** UTF-16 of one code point. */
  function EncodeOne(p: Scalar): (t: Text)
    ensures |t| == 1 ==> t == [p] && !IsHigh(p) && !IsLow(p)
    ensures |t| != 1 ==> |t| == 2 && IsHigh(t[0]) && IsLow(t[1]) && Pair(t[0], t[1]) == p
  {
    if p < 0x10000 then [p] else [0xd800 + (p - 0x10000) / 0x400, 0xdc00 + (p - 0x10000) % 0x400]
  }

  /** UTF-16 of a Rust string. */
  function Encode(s: string): Text {
    if s == "" then [] else EncodeOne(s[0] as int) + Encode(s[1..])
  }

  function Codes(s: string): seq<Scalar> {
    seq(|s|, i requires 0 <= i < |s| => s[i] as int)
  }

  lemma PointsOfOne(p: Scalar, t: Text)
    requires Points(t).Some?
    ensures Points(EncodeOne(p) + t) == Some([p] + Points(t).value)
  {
    var one := EncodeOne(p);
    assert (one + t)[|one|..] == t;
  }

  /** Decoding undoes encoding. */
  lemma {:induction false} EncodeDecodes(s: string)
    ensures Points(Encode(s)) == Some(Codes(s))
  {
    if s == "" {
      assert Codes(s) == [];
    } else {
      EncodeDecodes(s[1..]);
      PointsOfOne(s[0] as int, Encode(s[1..]));
      assert Codes(s) == [s[0] as int] + Codes(s[1..]);
    }
  }

  lemma EncodeInjective(a: string, b: string)
    requires Encode(a) == Encode(b)
    ensures a == b
  {
    EncodeDecodes(a);
    EncodeDecodes(b);
    assert Codes(a) == Codes(b);
    forall i | 0 <= i < |a| ensures a[i] == b[i] {
      assert Codes(a)[i] == Codes(b)[i];
    }
  }
}
