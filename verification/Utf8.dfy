/**
  Bytes, and the UTF-8 scanning shared by the side buffer, the drain cursor and
  the renderer.  A Rust `String` is its UTF-8 byte sequence, so rendered text is
  a byte sequence too.
 */
module Utf8 {
  import opened Sequences
  import opened Wrappers

  type byte = b: int | 0 <= b < 256

  const NEWLINE: byte := 10
  const BACKSLASH: byte := 92

  /** What a left-to-right decoder sees at the front of its input. */
  datatype Step =
    | Scalar(len: nat)     // one well-formed scalar value
    | Malformed(len: nat)  // `error_len` is `Some(len)`
    | Truncated            // `error_len` is `None`: the input ends inside a sequence

  predicate IsContinuation(b: byte) {
    0x80 <= b <= 0xBF
  }

  /** Length announced by a lead byte, 0 when no sequence starts with it. */
  function Width(lead: byte): nat {
    if lead <= 0x7F then 1
    else if 0xC2 <= lead <= 0xDF then 2
    else if 0xE0 <= lead <= 0xEF then 3
    else if 0xF0 <= lead <= 0xF4 then 4
    else 0
  }

  /** The second-byte ranges of section 4 of RFC 3629. */
  predicate SecondAllowed(lead: byte, b: byte) {
    match lead
    case 0xE0 => 0xA0 <= b <= 0xBF
    case 0xED => 0x80 <= b <= 0x9F
    case 0xF0 => 0x90 <= b <= 0xBF
    case 0xF4 => 0x80 <= b <= 0x8F
    case _ => IsContinuation(b)
  }

  function DecodeStep(s: seq<byte>): (r: Step)
    requires s != []
    ensures r.Scalar? ==> 1 <= r.len <= 4 && r.len <= |s|
    ensures r.Malformed? ==> 1 <= r.len <= 3 && r.len <= |s|
    ensures r.Truncated? ==> |s| <= 3
  {
    var w := Width(s[0]);
    if w == 0 then Malformed(1)
    else if w == 1 then Scalar(1)
    else if |s| < 2 then Truncated
    else if !SecondAllowed(s[0], s[1]) then Malformed(1)
    else if w == 2 then Scalar(2)
    else if |s| < 3 then Truncated
    else if !IsContinuation(s[2]) then Malformed(2)
    else if w == 3 then Scalar(3)
    else if |s| < 4 then Truncated
    else if !IsContinuation(s[3]) then Malformed(3)
    else Scalar(4)
  }

  function StepLen(s: seq<byte>, r: Step): nat {
    match r
    case Scalar(n) => n
    case Malformed(n) => n
    case Truncated => |s|
  }

  /** A step is one byte that is not a continuation and continuations after it, or a stray one. */
  lemma StepShape(s: seq<byte>)
    requires s != []
    ensures IsContinuation(s[0]) ==> DecodeStep(s) == Malformed(1)
    ensures forall i :: 1 <= i < StepLen(s, DecodeStep(s)) ==> IsContinuation(s[i])
  {
  }

  // ----- conformance with RFC 3629

  predicate IsScalarValue(cp: nat) {
    cp <= 0x10FFFF && !(0xD800 <= cp <= 0xDFFF)
  }

  /** The encoding table of section 3 of RFC 3629. */
  function Encode(cp: nat): (s: seq<byte>)
    requires IsScalarValue(cp)
    ensures 1 <= |s| <= 4
  {
    if cp < 0x80 then [cp]
    else if cp < 0x800 then [0xC0 + cp / 64, 0x80 + cp % 64]
    else if cp < 0x10000 then [0xE0 + cp / 4096, 0x80 + cp / 64 % 64, 0x80 + cp % 64]
    else [0xF0 + cp / 262144, 0x80 + cp / 4096 % 64, 0x80 + cp / 64 % 64, 0x80 + cp % 64]
  }

  /** Every encoded scalar value is taken as one step, whatever follows it. */
  lemma EncodedScalarIsOneStep(cp: nat, rest: seq<byte>)
    requires IsScalarValue(cp)
    ensures DecodeStep(Encode(cp) + rest) == Scalar(|Encode(cp)|)
  {
    var e := Encode(cp);
    var s := e + rest;
    assert forall i :: 0 <= i < |e| ==> s[i] == e[i];
  }

  /** Appends the six payload bits of a continuation byte. */
  function Place(high: nat, b: byte): (cp: nat)
    requires IsContinuation(b)
    ensures cp / 64 == high && 0x80 + cp % 64 == b
  {
    64 * high + (b as int - 0x80)
  }

  /** Nothing else is: a scalar step always spells out some scalar value. */
  lemma ScalarStepIsEncoded(s: seq<byte>) returns (cp: nat)
    requires s != [] && DecodeStep(s).Scalar?
    ensures IsScalarValue(cp) && Encode(cp) == s[..DecodeStep(s).len]
  {
    match DecodeStep(s).len
    case 1 =>
      cp := s[0];
      assert s[..1] == [cp];
    case 2 => cp := Encoded2(s);
    case 3 => cp := Encoded3(s);
    case _ => cp := Encoded4(s);
  }

  lemma Encoded2(s: seq<byte>) returns (cp: nat)
    requires s != [] && DecodeStep(s) == Scalar(2)
    ensures 0x80 <= cp < 0x800 && Encode(cp) == s[..2]
  {
    cp := Place(s[0] as int - 0xC0, s[1]);
  }

  lemma Encoded3(s: seq<byte>) returns (cp: nat)
    requires s != [] && DecodeStep(s) == Scalar(3)
    ensures 0x800 <= cp < 0x10000 && IsScalarValue(cp) && Encode(cp) == s[..3]
  {
    var high := Place(s[0] as int - 0xE0, s[1]);
    cp := Place(high, s[2]);
    assert cp / 4096 == high / 64;
  }

  lemma Encoded4(s: seq<byte>) returns (cp: nat)
    requires s != [] && DecodeStep(s) == Scalar(4)
    ensures 0x10000 <= cp && IsScalarValue(cp) && Encode(cp) == s[..4]
  {
    var high := Place(s[0] as int - 0xF0, s[1]);
    var middle := Place(high, s[2]);
    cp := Place(middle, s[3]);
    assert cp / 4096 == middle / 64 && cp / 262144 == high / 64;
  }

  // ----- std::str::from_utf8

  datatype Utf8Check = Valid | Invalid(validUpTo: nat, errorLen: Option<nat>)

  function FromUtf8(s: seq<byte>): (r: Utf8Check)
    ensures r.Invalid? ==> r.validUpTo < |s|
    ensures r.Invalid? && r.errorLen.Some? ==> 0 < r.errorLen.value && r.validUpTo + r.errorLen.value <= |s|
  {
    if s == [] then Valid
    else
      match DecodeStep(s)
      case Malformed(n) => Invalid(0, Some(n))
      case Truncated => Invalid(0, None)
      case Scalar(n) =>
        match FromUtf8(s[n..])
        case Valid => Valid
        case Invalid(v, e) => Invalid(n + v, e)
  }

  // ----- rendering

  function HexDigit(n: nat): byte
    requires n < 16
  {
    if n < 10 then 48 + n else 55 + n
  }

  /** `\xNN`, upper-case, for each byte. */
  function Escape(s: seq<byte>): (r: seq<byte>)
    ensures |r| == 4 * |s|
  {
    if s == [] then [] else EscapeByte(s[0]) + Escape(s[1..])
  }

  function EscapeByte(b: byte): (r: seq<byte>)
    ensures |r| == 4
  {
    [BACKSLASH, 120, HexDigit(b / 16), HexDigit(b % 16)]
  }

  ghost predicate Printable(s: seq<byte>) {
    forall i :: 0 <= i < |s| ==> s[i] < 0x80 && s[i] != NEWLINE
  }

  lemma {:induction false} EscapePrintable(s: seq<byte>)
    ensures Printable(Escape(s))
    ensures s != [] ==> Escape(s)[0] == BACKSLASH
  {
    if s != [] {
      EscapePrintable(s[1..]);
      assert Printable(EscapeByte(s[0]));
      assert forall i :: 4 <= i < |Escape(s)| ==> Escape(s)[i] == Escape(s[1..])[i - 4];
    }
  }

  /** Well-formed scalars verbatim, every other byte escaped. */
  function Render(s: seq<byte>): seq<byte> {
    if s == [] then []
    else
      match DecodeStep(s)
      case Scalar(n) => s[..n] + Render(s[n..])
      case Malformed(n) => Escape(s[..n]) + Render(s[n..])
      case Truncated => Escape(s)
  }

  lemma {:induction false} EscapeConcat(a: seq<byte>, b: seq<byte>)
    ensures Escape(a + b) == Escape(a) + Escape(b)
  {
    if a == [] {
      assert a + b == b;
    } else {
      hide EscapeByte;
      EscapeConcat(a[1..], b);
      assert (a + b)[1..] == a[1..] + b;
      Assoc3(EscapeByte(a[0]), Escape(a[1..]), Escape(b));
    }
  }

  /** The scan inside `from_utf8` and the scan of the loop around it meet. */
  lemma {:induction false} RenderByCheck(s: seq<byte>)
    ensures RenderedBy(s, FromUtf8(s), Render(s))
  {
    hide DecodeStep, Escape, RenderedBy;
    if s == [] || !DecodeStep(s).Scalar? {
      RenderedByFirstError(s);
    } else {
      var n := DecodeStep(s).len;
      RenderByCheck(s[n..]);
      RenderedByShift(s, n, FromUtf8(s[n..]), Render(s[n..]));
    }
  }

  lemma RenderedByFirstError(s: seq<byte>)
    requires s == [] || !DecodeStep(s).Scalar?
    ensures RenderedBy(s, FromUtf8(s), Render(s))
  {
    hide DecodeStep, Escape;
    if s != [] {
      var n := StepLen(s, DecodeStep(s));
      assert s[..0] == [] && s[0..n] == s[..n] && s[0..] == s;
      assert [] + Escape(s[..n]) == Escape(s[..n]);
    }
  }

  ghost predicate RenderedBy(s: seq<byte>, check: Utf8Check, r: seq<byte>) {
    match check
    case Valid => r == s
    case Invalid(v, None) => v <= |s| && r == s[..v] + Escape(s[v..])
    case Invalid(v, Some(e)) => v + e <= |s| && r == s[..v] + Escape(s[v..v + e]) + Render(s[v + e..])
  }

  lemma RenderedByShift(s: seq<byte>, n: nat, check: Utf8Check, r: seq<byte>)
    requires n <= |s| && RenderedBy(s[n..], check, r)
    ensures RenderedBy(s, match check case Valid => Valid case Invalid(v, e) => Invalid(n + v, e), s[..n] + r)
  {
    hide DecodeStep, Escape;
    match check
    case Valid => TakeThenDrop(s, n);
    case Invalid(v, None) => ShiftTail(s, n, v);
    case Invalid(v, Some(e)) => ShiftMiddle(s, n, v, e, Render(s[n..][v + e..]));
  }

  lemma ShiftTail(s: seq<byte>, n: nat, v: nat)
    requires n + v <= |s|
    ensures s[..n] + (s[n..][..v] + Escape(s[n..][v..])) == s[..n + v] + Escape(s[n + v..])
  {
    DropDrop(s, n, v);
    TakeTake(s, n, v);
    Assoc3(s[..n], s[n..][..v], Escape(s[n..][v..]));
  }

  lemma ShiftMiddle(s: seq<byte>, n: nat, v: nat, e: nat, r: seq<byte>)
    requires n + v + e <= |s|
    ensures s[..n] + (s[n..][..v] + Escape(s[n..][v..v + e]) + r) == s[..n + v] + Escape(s[n + v..n + v + e]) + r
    ensures s[n..][v + e..] == s[n + v + e..]
  {
    DropDrop(s, n, v + e);
    SliceDrop(s, n, v, v + e);
    TakeTake(s, n, v);
    Assoc4(s[..n], s[n..][..v], Escape(s[n..][v..v + e]), r);
  }

  /** One round of the rendering loop: the valid part, the bad part, the rest. */
  lemma RoundShape(out: seq<byte>, s: seq<byte>, check: Utf8Check, r: seq<byte>)
    requires check.Invalid? && RenderedBy(s, check, r)
    ensures var v := check.validUpTo;
            var e := match check.errorLen case Some(len) => v + len case None => |s|;
            out + r == out + s[..v] + Escape(s[v..e]) + Render(s[e..])
  {
    hide DecodeStep, Escape;
    var v := check.validUpTo;
    match check.errorLen
    case Some(len) => Assoc4(out, s[..v], Escape(s[v..v + len]), Render(s[v + len..]));
    case None =>
      assert s[v..|s|] == s[v..] && s[|s|..] == [];
      Assoc3(out, s[..v], Escape(s[v..]));
  }

  /** `render_bytes` on `bytes[start..end]`. */
  method RenderBytes(bytes: seq<byte>, start: nat, end: nat) returns (out: seq<byte>)
    requires start <= end <= |bytes|
    ensures out == Render(bytes[start..end])
  {
    hide DecodeStep, Escape, Render, RenderedBy;
    out := [];
    var remaining := bytes[start..end];
    while remaining != []
      invariant out + Render(remaining) == Render(bytes[start..end])
      decreases |remaining|
    {
      match FromUtf8(remaining) {
        case Valid =>
          RenderValid(remaining);
          out := out + remaining;
          return;
        case Invalid(validUpTo, errorLen) =>
          RenderByCheck(remaining);
          RoundShape(out, remaining, FromUtf8(remaining), Render(remaining));
          assert out + remaining[..0] == out;
          if validUpTo > 0 {
            out := out + remaining[..validUpTo];
          }
          var invalidEnd := match errorLen case Some(len) => validUpTo + len case None => |remaining|;
          out := out + Escape(remaining[validUpTo..invalidEnd]);
          remaining := remaining[invalidEnd..];
      }
    }
    RenderValid(remaining);
  }

  lemma RenderValid(s: seq<byte>)
    requires FromUtf8(s).Valid?
    ensures Render(s) == s
  {
    RenderByCheck(s);
  }

  /** Cutting at k would tear a well-formed scalar apart; visible in the three bytes before k. */
  predicate CutsScalar(s: seq<byte>, k: nat)
    requires k <= |s|
  {
    exists j :: 0 <= j < k <= j + 3 && ScalarSpans(s, j, k)
  }

  /** A well-formed scalar starts at j and ends after k. */
  predicate ScalarSpans(s: seq<byte>, j: nat, k: nat)
    requires j < k <= |s|
  {
    DecodeStep(s[j..]).Scalar? && j + DecodeStep(s[j..]).len > k
  }

  lemma StepOfPrefix(s: seq<byte>, k: nat)
    requires 0 < k <= |s|
    ensures k < StepLen(s, DecodeStep(s)) ==> DecodeStep(s[..k]) == Truncated
    ensures k > StepLen(s, DecodeStep(s)) ==> DecodeStep(s[..k]) == DecodeStep(s)
    ensures k == StepLen(s, DecodeStep(s)) && DecodeStep(s).Scalar? ==> DecodeStep(s[..k]) == DecodeStep(s)
    ensures k == StepLen(s, DecodeStep(s)) && !DecodeStep(s).Scalar? ==>
              DecodeStep(s[..k]) == Truncated || DecodeStep(s[..k]) == Malformed(k)
  {
  }

  /** Past its first step, a string is torn exactly where its remainder is. */
  lemma CutsScalarShift(s: seq<byte>, k: nat)
    requires s != [] && StepLen(s, DecodeStep(s)) <= k <= |s|
    ensures CutsScalar(s, k) == CutsScalar(s[StepLen(s, DecodeStep(s))..], k - StepLen(s, DecodeStep(s)))
  {
    hide DecodeStep;
    var n := StepLen(s, DecodeStep(s));
    var t := s[n..];
    StepShape(s);
    forall j | 0 <= j < k
      ensures ScalarSpans(s, j, k) <==> n <= j && ScalarSpans(t, j - n, k - n)
    {
      StepShape(s[j..]);
      assert s[j..][0] == s[j];
      assert j == 0 ==> s[j..] == s;
      assert n <= j ==> t[j - n..] == s[j..];
    }
    if CutsScalar(t, k - n) {
      var j :| 0 <= j < k - n <= j + 3 && ScalarSpans(t, j, k - n);
      assert ScalarSpans(s, n + j, k);
    }
  }

  /** Inside a step that is not a scalar, every cut is harmless. */
  lemma {:induction false} RenderContinuations(c: seq<byte>, rest: seq<byte>)
    requires forall i :: 0 <= i < |c| ==> IsContinuation(c[i])
    ensures Render(c + rest) == Escape(c) + Render(rest)
  {
    hide DecodeStep, Escape;
    if c == [] {
      assert c + rest == rest;
    } else {
      RenderContinuations(c[1..], rest);
      var s := c + rest;
      StepShape(s);
      assert s[1..] == c[1..] + rest;
      assert s[..1] == [c[0]];
      assert Escape(c) == Escape([c[0]]) + Escape(c[1..]) by {
        EscapeConcat([c[0]], c[1..]);
        assert [c[0]] + c[1..] == c;
      }
      Assoc3(Escape([c[0]]), Escape(c[1..]), Render(rest));
    }
  }

  /** The two ways a cut can go. */
  ghost predicate SplitsAsPromised(s: seq<byte>, k: nat)
    requires k <= |s|
  {
    if CutsScalar(s, k) then |Render(s)| < |Render(s[..k])| + |Render(s[k..])|
    else Render(s) == Render(s[..k]) + Render(s[k..])
  }

  /**
    Rendering distributes over a cut unless the cut tears a well-formed scalar,
    and then the pieces render longer than the whole.
   */
  lemma {:induction false} RenderSplits(s: seq<byte>, k: nat)
    requires k <= |s|
    ensures SplitsAsPromised(s, k)
    decreases |s|
  {
    hide SplitsAsPromised;
    if k == 0 {
      RenderSplitsAtFront(s);
    } else {
      var n := StepLen(s, DecodeStep(s));
      if n <= k {
        RenderSplits(s[n..], k - n);
        RenderSplitsPastStep(s, k);
      } else {
        RenderSplitsInStep(s, k);
      }
    }
  }

  lemma RenderSplitsAtFront(s: seq<byte>)
    ensures SplitsAsPromised(s, 0)
  {
    assert s[..0] == [] && s[0..] == s;
    assert [] + Render(s) == Render(s);
  }

  lemma RenderSplitsIff(s: seq<byte>, k: nat)
    requires k <= |s|
    ensures Render(s) == Render(s[..k]) + Render(s[k..]) <==> !CutsScalar(s, k)
  {
    RenderSplits(s, k);
  }

  lemma {:induction false} RenderFirstStep(s: seq<byte>, k: nat)
    requires s != [] && StepLen(s, DecodeStep(s)) <= k <= |s|
    ensures var n := StepLen(s, DecodeStep(s));
            var head := if DecodeStep(s).Scalar? then s[..n] else Escape(s[..n]);
            Render(s[..k]) == head + Render(s[n..k])
  {
    var n := StepLen(s, DecodeStep(s));
    StepOfPrefix(s, k);
    assert s[..k][..n] == s[..n] && s[..k][n..] == s[n..k];
    if DecodeStep(s[..k]).Truncated? {
      assert n == k && s[n..k] == [];
    }
  }

  lemma RenderSplitsPastStep(s: seq<byte>, k: nat)
    requires s != [] && StepLen(s, DecodeStep(s)) <= k <= |s|
    requires SplitsAsPromised(s[StepLen(s, DecodeStep(s))..], k - StepLen(s, DecodeStep(s)))
    ensures SplitsAsPromised(s, k)
  {
    hide DecodeStep, Escape, CutsScalar, Render;
    var n := StepLen(s, DecodeStep(s));
    CutsScalarShift(s, k);
    assert s[n..][..k - n] == s[n..k] && s[n..][k - n..] == s[k..];
    RenderFirstStep(s, k);
    RenderFirstStep(s, |s|);
    assert s[..|s|] == s && s[n..|s|] == s[n..];
    var head := if DecodeStep(s).Scalar? then s[..n] else Escape(s[..n]);
    Assoc3(head, Render(s[n..k]), Render(s[k..]));
  }

  lemma RenderSplitsInStep(s: seq<byte>, k: nat)
    requires s != [] && 0 < k < StepLen(s, DecodeStep(s)) <= |s|
    ensures SplitsAsPromised(s, k)
  {
    hide DecodeStep, Escape;
    var n := StepLen(s, DecodeStep(s));
    StepShape(s);
    RenderAroundCut(s, k);
    RenderFirstStep(s, |s|);
    assert s[..|s|] == s && s[n..|s|] == s[n..];
    if DecodeStep(s).Scalar? {
      assert s[0..] == s;
      assert ScalarSpans(s, 0, k);
    } else {
      forall j | 0 <= j < k
        ensures !ScalarSpans(s, j, k)
      {
        StepShape(s[j..]);
        assert s[j..][0] == s[j];
        assert j == 0 ==> s[j..] == s;
      }
    }
  }

  lemma RenderAroundCut(s: seq<byte>, k: nat)
    requires s != [] && 0 < k < StepLen(s, DecodeStep(s)) <= |s|
    ensures var n := StepLen(s, DecodeStep(s));
            Render(s[..k]) + Render(s[k..]) == Escape(s[..n]) + Render(s[n..])
  {
    hide DecodeStep, Escape;
    var n := StepLen(s, DecodeStep(s));
    StepOfPrefix(s, k);
    StepShape(s);
    var c := s[k..n];
    RenderContinuations(c, s[n..]);
    assert c + s[n..] == s[k..];
    EscapeConcat(s[..k], c);
    assert s[..k] + c == s[..n];
    Assoc3(Escape(s[..k]), Escape(c), Render(s[n..]));
  }

  /** In particular a cut in front of any byte that is not a continuation is invisible. */
  lemma RenderConcat(a: seq<byte>, b: seq<byte>)
    requires b == [] || !IsContinuation(b[0])
    ensures Render(a + b) == Render(a) + Render(b)
  {
    var s := a + b;
    assert s[..|a|] == a && s[|a|..] == b;
    forall j | 0 <= j < |a|
      ensures !ScalarSpans(s, j, |a|)
    {
      StepShape(s[j..]);
      if b != [] {
        assert s[j..][|a| - j] == b[0];
      }
    }
    RenderSplitsIff(s, |a|);
  }

  lemma {:induction false} RenderAscii(s: seq<byte>)
    requires forall i :: 0 <= i < |s| ==> s[i] < 0x80
    ensures Render(s) == s
  {
    if s != [] {
      RenderAscii(s[1..]);
      assert s[..1] + s[1..] == s;
    }
  }

  // ----- the flushable prefix

  /** Everything but an incomplete sequence at the very end. */
  function Flushable(s: seq<byte>): (n: nat)
    ensures n <= |s| <= n + 3
  {
    if s == [] then 0
    else
      match DecodeStep(s)
      case Truncated => 0
      case Scalar(k) => k + Flushable(s[k..])
      case Malformed(k) => k + Flushable(s[k..])
  }

  /** What is held back is one incomplete sequence. */
  lemma {:induction false} HeldBackIsIncomplete(s: seq<byte>)
    requires Flushable(s) < |s|
    ensures DecodeStep(s[Flushable(s)..]) == Truncated
    ensures !IsContinuation(s[Flushable(s)])
  {
    hide DecodeStep;
    StepShape(s);
    if DecodeStep(s).Truncated? {
      assert s[0..] == s;
    } else {
      var k := StepLen(s, DecodeStep(s));
      HeldBackIsIncomplete(s[k..]);
      assert s[k..][Flushable(s[k..])..] == s[k + Flushable(s[k..])..];
    }
  }

  lemma {:induction false} FlushableByCheck(s: seq<byte>)
    ensures FlushedBy(s, FromUtf8(s), Flushable(s))
  {
    hide DecodeStep;
    if s != [] && DecodeStep(s).Scalar? {
      var n := DecodeStep(s).len;
      FlushableByCheck(s[n..]);
      FlushedByShift(s, n, FromUtf8(s[n..]), Flushable(s[n..]));
    }
  }

  ghost predicate FlushedBy(s: seq<byte>, check: Utf8Check, f: nat) {
    match check
    case Valid => f == |s|
    case Invalid(v, None) => f == v
    case Invalid(v, Some(e)) => v + e <= |s| && f == v + e + Flushable(s[v + e..])
  }

  lemma FlushedByShift(s: seq<byte>, n: nat, check: Utf8Check, f: nat)
    requires n <= |s| && FlushedBy(s[n..], check, f)
    ensures FlushedBy(s, match check case Valid => Valid case Invalid(v, e) => Invalid(n + v, e), n + f)
  {
    hide DecodeStep;
    if check.Invalid? && check.errorLen.Some? {
      DropDrop(s, n, check.validUpTo + check.errorLen.value);
    }
  }

  /** `flushable_prefix_len`. */
  method FlushablePrefixLen(bytes: seq<byte>) returns (n: nat)
    ensures n == Flushable(bytes)
  {
    var offset := 0;
    var remaining := bytes;
    assert Flushable([]) == 0;
    hide Flushable, FromUtf8;
    while remaining != []
      invariant offset + |remaining| == |bytes|
      invariant offset + Flushable(remaining) == Flushable(bytes)
      decreases |remaining|
    {
      FlushableByCheck(remaining);
      match FromUtf8(remaining) {
        case Valid => return |bytes|;
        case Invalid(validUpTo, Some(errorLen)) =>
          var invalidEnd := validUpTo + errorLen;
          offset := offset + invalidEnd;
          remaining := remaining[invalidEnd..];
        case Invalid(validUpTo, None) =>
          return offset + validUpTo;
      }
    }
    return offset;
  }

  /** Length of the incomplete sequence that ends s, read off its last three bytes. */
  function OpenTail(s: seq<byte>): nat {
    if |s| >= 1 && DecodeStep(s[|s| - 1..]).Truncated? then 1
    else if |s| >= 2 && DecodeStep(s[|s| - 2..]).Truncated? then 2
    else if |s| >= 3 && DecodeStep(s[|s| - 3..]).Truncated? then 3
    else 0
  }

  lemma OpenTailIs(s: seq<byte>, m: nat)
    requires 0 < m <= |s|
    requires DecodeStep(s[|s| - m..]).Truncated?
    ensures OpenTail(s) == m
  {
    var t := s[|s| - m..];
    StepShape(t);
    assert m >= 2 ==> s[|s| - 1..][0] == t[m - 1];
    assert m >= 3 ==> s[|s| - 2..][0] == t[m - 2];
  }

  /** UTF-8 is self-synchronising: three bytes decide what the whole scan decides. */
  lemma {:induction false} FlushableIsLocal(s: seq<byte>)
    ensures Flushable(s) + OpenTail(s) == |s|
  {
    hide DecodeStep;
    if Flushable(s) < |s| {
      HeldBackIsIncomplete(s);
      OpenTailIs(s, |s| - Flushable(s));
    } else if OpenTail(s) > 0 {
      OpenTailIsHeldBack(s, OpenTail(s));
      assert false;
    }
  }

  lemma {:induction false} OpenTailIsHeldBack(s: seq<byte>, m: nat)
    requires 0 < m <= |s|
    requires DecodeStep(s[|s| - m..]).Truncated?
    ensures Flushable(s) < |s|
    decreases |s|
  {
    var k := |s| - m;
    if k == 0 {
      assert s[0..] == s;
    } else {
      assert s[k..][0] == s[k];
      StepShape(s);
      StepShape(s[k..]);
      var n := StepLen(s, DecodeStep(s));
      assert n <= k;
      assert s[n..][|s[n..]| - m..] == s[k..];
      OpenTailIsHeldBack(s[n..], m);
    }
  }

  /**
    Scanning the flushable prefix again can stop earlier: the prefix of
    [0xE2, 0xC3] is [0xE2], which alone is incomplete.
   */
  lemma FlushableNotIdempotent()
    ensures Flushable([0xE2, 0xC3]) == 1
    ensures Flushable([0xE2, 0xC3][..1]) == 0
  {
    var s: seq<byte> := [0xE2, 0xC3];
    assert s[1..] == [0xC3] && s[..1] == [0xE2];
    assert DecodeStep(s) == Malformed(1);
    assert DecodeStep([0xC3]) == Truncated && DecodeStep([0xE2]) == Truncated;
  }

  /** It is stable exactly when no second incomplete sequence ends right before the one held back. */
  lemma FlushableIdempotentIff(s: seq<byte>)
    ensures OpenTail(s) <= |s|
    ensures Flushable(s[..Flushable(s)]) == Flushable(s) <==> OpenTail(s[..|s| - OpenTail(s)]) == 0
  {
    FlushableIsLocal(s);
    FlushableIsLocal(s[..Flushable(s)]);
  }

  /** Rendering the two sides of the flushable cut separately changes nothing. */
  lemma RenderAtFlushable(s: seq<byte>)
    ensures Render(s) == Render(s[..Flushable(s)]) + Render(s[Flushable(s)..])
  {
    hide DecodeStep, Flushable;
    var n := Flushable(s);
    if n < |s| {
      HeldBackIsIncomplete(s);
    }
    assert s[..n] + s[n..] == s;
    RenderConcat(s[..n], s[n..]);
  }

  lemma StepStands(s: seq<byte>, t: seq<byte>)
    requires s != [] && !DecodeStep(s).Truncated?
    ensures DecodeStep(s + t) == DecodeStep(s)
  {
  }

  /** Steps taken before more input arrives stand when it does. */
  lemma {:induction false} FlushableGrows(s: seq<byte>, t: seq<byte>)
    ensures Flushable(s) <= Flushable(s + t)
    ensures Flushable(s + t) == Flushable(s) + Flushable(s[Flushable(s)..] + t)
    decreases |s|
  {
    hide DecodeStep;
    if s == [] {
      assert s + t == t && s[0..] + t == t;
    } else if DecodeStep(s).Truncated? {
      assert s[0..] == s;
    } else {
      var n := StepLen(s, DecodeStep(s));
      var u := s[n..];
      StepStands(s, t);
      assert (s + t)[n..] == u + t;
      FlushableGrows(u, t);
      DropDrop(s, n, Flushable(u));
    }
  }

  // ----- sealing

  /** `escape_incomplete_utf8_tail`. */
  function EscapeTail(s: seq<byte>): seq<byte> {
    s[..Flushable(s)] + Escape(s[Flushable(s)..])
  }

  method EscapeIncompleteUtf8Tail(bytes: seq<byte>) returns (escaped: seq<byte>)
    ensures escaped == EscapeTail(bytes)
  {
    hide DecodeStep, Escape;
    var flushable := FlushablePrefixLen(bytes);
    if flushable == |bytes| {
      assert bytes[..flushable] == bytes && bytes[flushable..] == [];
      return bytes;
    }
    escaped := bytes[..flushable];
    var tail := [];
    for i := flushable to |bytes|
      invariant tail == Escape(bytes[flushable..i])
    {
      EscapeConcat(bytes[flushable..i], [bytes[i]]);
      assert bytes[flushable..i] + [bytes[i]] == bytes[flushable..i + 1];
      tail := tail + Escape([bytes[i]]);
    }
    assert bytes[flushable..|bytes|] == bytes[flushable..];
    escaped := escaped + tail;
  }

  /** Sealing is invisible to the renderer, and leaves nothing to hold back. */
  lemma SealingCommutesWithRendering(s: seq<byte>)
    ensures Render(EscapeTail(s)) == Render(s)
    ensures Flushable(EscapeTail(s)) == |EscapeTail(s)|
  {
    hide DecodeStep, Escape;
    var n := Flushable(s);
    var head, tail := s[..n], s[n..];
    EscapePrintable(tail);
    if n < |s| {
      HeldBackIsIncomplete(s);
      FlushableAfterAscii(head, Escape(tail));
    } else {
      assert EscapeTail(s) == s;
    }
    RenderAtFlushable(s);
    RenderConcat(head, Escape(tail));
    RenderAscii(Escape(tail));
  }

  lemma FlushableAfterAscii(a: seq<byte>, z: seq<byte>)
    requires |z| >= 3 && forall i :: 0 <= i < |z| ==> z[i] < 0x80
    ensures Flushable(a + z) == |a + z|
  {
    var e := a + z;
    assert e[|e| - 1..][0] == z[|z| - 1] && e[|e| - 2..][0] == z[|z| - 2] && e[|e| - 3..][0] == z[|z| - 3];
    FlushableIsLocal(e);
  }

  // ----- no scalar is torn

  /** A scalar across the end of complete bytes would have left them incomplete. */
  lemma NotTornAfterComplete(all: seq<byte>, left: seq<byte>, right: seq<byte>)
    requires Flushable(all) == |all| && |left| <= |all| && all[|all| - |left|..] == left
    ensures !CutsScalar(left + right, |left|)
  {
    hide DecodeStep, Flushable, CutsScalar;
    var s := left + right;
    FlushableIsLocal(all);
    forall j | 0 <= j < |left|
      ensures !ScalarSpans(s, j, |left|)
    {
      if ScalarSpans(s, j, |left|) {
        StepOfPrefix(s[j..], |left| - j);
        assert s[j..][..|left| - j] == left[j..] == all[|all| - (|left| - j)..];
        OpenTailIs(all, |left| - j);
        assert false;
      }
    }
    NothingTorn(s, |left|);
  }

  lemma NothingTorn(s: seq<byte>, k: nat)
    requires k <= |s| && forall j :: 0 <= j < k ==> !ScalarSpans(s, j, k)
    ensures !CutsScalar(s, k)
  {
  }

  lemma NotTornBeforeLead(left: seq<byte>, right: seq<byte>)
    requires right != [] && !IsContinuation(right[0])
    ensures !CutsScalar(left + right, |left|)
  {
    var s := left + right;
    forall j | 0 <= j < |left|
      ensures !ScalarSpans(s, j, |left|)
    {
      StepShape(s[j..]);
      assert s[j..][|left| - j] == right[0];
    }
    NothingTorn(s, |left|);
  }
}
