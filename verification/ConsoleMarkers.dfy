/**
  The streaming decoder for R's console output on Windows, where UTF-8 text is
  embedded between markers in code-page text and both may be cut anywhere by
  R's output callbacks.
 */
module ConsoleMarkers {
  import opened Sequences
  import opened Utf8
  import opened Wrappers

  /** A marker is one of these bytes followed by FF FE. */
  const IN: byte := 0x02
  const OUT: byte := 0x03

  function Marker(lead: byte): seq<byte> {
    [lead, 0xFF, 0xFE]
  }

  /** Decodes bytes of the active code page. */
  type CodePage = seq<byte> -> seq<byte>

  ghost predicate Distributes(cp: CodePage) {
    forall a, b :: cp(a + b) == cp(a) + cp(b)
  }

  /** An embedded segment is text as it stands, or else code-page text after all. */
  function Embedded(cp: CodePage, segment: seq<byte>): seq<byte> {
    if FromUtf8(segment).Valid? then segment else cp(segment)
  }

  datatype Decoder = Decoder(tail: seq<byte>, segment: seq<byte>, inside: bool)

  datatype Decoded = Decoded(out: seq<byte>, state: Decoder)

  const FRESH := Decoder([], [], false)

  // ----- the reference: one byte at a time

  predicate StartsWith(s: seq<byte>, lead: byte) {
    |s| >= 3 && s[0] == lead && s[1] == 0xFF && s[2] == 0xFE
  }

  /** A proper prefix of the marker. */
  predicate MayBecome(s: seq<byte>, lead: byte) {
    |s| < 3 && (|s| > 0 ==> s[0] == lead) && (|s| > 1 ==> s[1] == 0xFF)
  }

  function Scan(cp: CodePage, segment: seq<byte>, inside: bool, input: seq<byte>): Decoded
    decreases |input|
  {
    if input == [] then Decoded([], Decoder([], segment, inside))
    else if !inside && StartsWith(input, IN) then Scan(cp, segment, true, input[3..])
    else if !inside && StartsWith(input, OUT) then Scan(cp, segment, false, input[3..])
    else if inside && StartsWith(input, OUT) then After(Embedded(cp, segment), Scan(cp, [], false, input[3..]))
    else if Undecided(inside, input) then Decoded([], Decoder(input, segment, inside))
    else if inside then Scan(cp, segment + [input[0]], true, input[1..])
    else After(cp([input[0]]), Scan(cp, segment, false, input[1..]))
  }

  predicate Undecided(inside: bool, input: seq<byte>) {
    MayBecome(input, OUT) || (!inside && MayBecome(input, IN))
  }

  function After(out: seq<byte>, d: Decoded): Decoded {
    d.(out := out + d.out)
  }

  /** One callback: nothing happens for no bytes, else the bytes follow the undecided tail. */
  function Decode(cp: CodePage, s: Decoder, bytes: seq<byte>): Decoded {
    if bytes == [] then Decoded([], s) else Scan(cp, s.segment, s.inside, s.tail + bytes)
  }

  predicate Marked(inside: bool, x: seq<byte>) {
    StartsWith(x, OUT) || (!inside && StartsWith(x, IN))
  }

  lemma AfterNothing(d: Decoded)
    ensures After([], d) == d
  {
  }

  /** More input never turns a byte that was not the start of a marker into one. */
  lemma StaysOrdinary(inside: bool, x: seq<byte>, y: seq<byte>)
    requires x != [] && !Marked(inside, x) && !Undecided(inside, x)
    ensures !Marked(inside, x + y) && !Undecided(inside, x + y)
  {
  }

  // ----- the decoder as it is: text is decoded run by run

  /** `decode_windows_code_page_bytes`. */
  function Text(cp: CodePage, run: seq<byte>): seq<byte> {
    if run == [] then [] else cp(run)
  }

  /** `run` is the text since the last marker or callback, decoded when it ends. */
  function ScanRuns(cp: CodePage, run: seq<byte>, segment: seq<byte>, inside: bool, input: seq<byte>): Decoded
    decreases |input|
  {
    if input == [] then Decoded(Text(cp, run), Decoder([], segment, inside))
    else if !inside && StartsWith(input, IN) then After(Text(cp, run), ScanRuns(cp, [], segment, true, input[3..]))
    else if !inside && StartsWith(input, OUT) then After(Text(cp, run), ScanRuns(cp, [], segment, false, input[3..]))
    else if inside && StartsWith(input, OUT) then After(Embedded(cp, segment), ScanRuns(cp, [], [], false, input[3..]))
    else if Undecided(inside, input) then Decoded(Text(cp, run), Decoder(input, segment, inside))
    else if inside then ScanRuns(cp, run, segment + [input[0]], true, input[1..])
    else ScanRuns(cp, run + [input[0]], segment, false, input[1..])
  }

  function DecodeRuns(cp: CodePage, s: Decoder, bytes: seq<byte>): Decoded {
    if bytes == [] then Decoded([], s) else ScanRuns(cp, [], s.segment, s.inside, s.tail + bytes)
  }

  /** When code-page decoding distributes, decoding by runs is decoding byte by byte. */
  lemma {:induction false} RunsAreBytes(cp: CodePage, run: seq<byte>, segment: seq<byte>, inside: bool,
                                        input: seq<byte>)
    requires Distributes(cp) && (inside ==> run == [])
    ensures ScanRuns(cp, run, segment, inside, input) == After(Text(cp, run), Scan(cp, segment, inside, input))
    decreases |input|
  {
    hide Embedded, Text, Distributes, Undecided;
    NoText(cp);
    if input == [] || (!Marked(inside, input) && Undecided(inside, input)) {
      AfterEmpty(Text(cp, run));
    } else if Marked(inside, input) {
      var into := !inside && StartsWith(input, IN);
      var rest := if inside then [] else segment;
      RunsAreBytes(cp, [], rest, into, input[3..]);
      AfterNothing(Scan(cp, rest, into, input[3..]));
      if inside {
        AfterNothing(After(Embedded(cp, segment), Scan(cp, [], false, input[3..])));
      }
    } else if inside {
      RunsAreBytes(cp, run, segment + [input[0]], true, input[1..]);
    } else {
      RunsAreBytes(cp, run + [input[0]], segment, false, input[1..]);
      TextGrows(cp, run, input[0]);
      Assoc3(Text(cp, run), cp([input[0]]), Scan(cp, segment, false, input[1..]).out);
    }
  }

  lemma AfterEmpty(out: seq<byte>)
    ensures out + [] == out
  {
  }

  lemma NoText(cp: CodePage)
    ensures Text(cp, []) == []
  {
  }

  lemma TextGrows(cp: CodePage, run: seq<byte>, b: byte)
    requires Distributes(cp)
    ensures Text(cp, run + [b]) == Text(cp, run) + cp([b])
  {
    assert cp(run + [b]) == cp(run) + cp([b]);
    if run == [] {
      assert run + [b] == [b] && [] + cp([b]) == cp([b]);
    }
  }

  lemma RunsDecode(cp: CodePage, s: Decoder, bytes: seq<byte>)
    requires Distributes(cp)
    ensures DecodeRuns(cp, s, bytes) == Decode(cp, s, bytes)
  {
    hide ScanRuns, Scan, Distributes;
    if bytes != [] {
      RunsAreBytes(cp, [], s.segment, s.inside, s.tail + bytes);
      AfterNothing(Scan(cp, s.segment, s.inside, s.tail + bytes));
    }
  }

  lemma ScanOrdinary(cp: CodePage, run: seq<byte>, segment: seq<byte>, inside: bool, input: seq<byte>)
    requires input != [] && !Marked(inside, input) && !Undecided(inside, input)
    ensures ScanRuns(cp, run, segment, inside, input)
            == if inside then ScanRuns(cp, run, segment + [input[0]], true, input[1..])
               else ScanRuns(cp, run + [input[0]], segment, false, input[1..])
  {
  }

  /** At a marker or at the end of the input the run is decoded. */
  lemma RunEnds(cp: CodePage, run: seq<byte>, segment: seq<byte>, input: seq<byte>)
    requires input == [] || Marked(false, input) || Undecided(false, input)
    ensures ScanRuns(cp, run, segment, false, input) == After(Text(cp, run), ScanRuns(cp, [], segment, false, input))
  {
    hide Embedded, Undecided;
    AfterEmpty(Text(cp, run));
    NoText(cp);
    hide Text;
    if input != [] && Marked(false, input) {
      AfterNothing(ScanRuns(cp, [], segment, StartsWith(input, IN), input[3..]));
    }
  }

  // ----- when callback boundaries show

  /** The text that is decoded only because the input ends. */
  function LastRun(run: seq<byte>, inside: bool, input: seq<byte>): seq<byte>
    decreases |input|
  {
    if input == [] then run
    else if Marked(inside, input) then LastRun([], !inside && StartsWith(input, IN), input[3..])
    else if Undecided(inside, input) then run
    else LastRun(if inside then run else run + [input[0]], inside, input[1..])
  }

  /** The text before the first marker, or before an undecided end. */
  function FirstRun(inside: bool, input: seq<byte>): seq<byte> {
    if inside || input == [] || Marked(false, input) || Undecided(false, input) then []
    else [input[0]] + FirstRun(false, input[1..])
  }

  /** Text joins the run before it; what comes behind does not depend on that run. */
  lemma {:induction false} RunJoins(cp: CodePage, run: seq<byte>, segment: seq<byte>, input: seq<byte>)
    ensures var v := FirstRun(false, input);
            |v| <= |input|
            && ScanRuns(cp, run, segment, false, input)
               == After(Text(cp, run + v), ScanRuns(cp, [], segment, false, input[|v|..]))
    decreases |input|
  {
    hide Text, Marked, Undecided, ScanRuns;
    if input == [] || Marked(false, input) || Undecided(false, input) {
      assert input[0..] == input && run + [] == run;
      RunEnds(cp, run, segment, input);
    } else {
      var rest := FirstRun(false, input[1..]);
      RunJoins(cp, run + [input[0]], segment, input[1..]);
      ScanOrdinary(cp, run, segment, false, input);
      assert run + [input[0]] + rest == run + ([input[0]] + rest);
      assert input[1..][|rest|..] == input[|rest| + 1..];
    }
  }

  /** Up to `p` and from `d` on, one scan and two scans agree; in between one decodes u + v, two decode u and v. */
  ghost predicate Meets(cp: CodePage, run: seq<byte>, segment: seq<byte>, inside: bool, x: seq<byte>, y: seq<byte>,
                        p: seq<byte>, d: Decoded)
  {
    var first := ScanRuns(cp, run, segment, inside, x);
    var st := first.state;
    var u, v := LastRun(run, inside, x), FirstRun(st.inside, st.tail + y);
    && first.out == p + Text(cp, u)
    && ScanRuns(cp, run, segment, inside, x + y) == After(p + Text(cp, u + v), d)
    && ScanRuns(cp, [], st.segment, st.inside, st.tail + y) == After(Text(cp, v), d)
  }

  lemma {:induction false} ScansMeet(cp: CodePage, run: seq<byte>, segment: seq<byte>, inside: bool,
                                     x: seq<byte>, y: seq<byte>)
      returns (p: seq<byte>, d: Decoded)
    requires inside ==> run == []
    ensures Meets(cp, run, segment, inside, x, y, p, d)
    decreases |x|
  {
    assert Marked(inside, x) ==> |x| >= 3;
    hide Meets, Marked, Undecided, Embedded, Text, ScanRuns, LastRun, FirstRun;
    if x == [] || (!Marked(inside, x) && Undecided(inside, x)) {
      p, d := MeetsAtEnd(cp, run, segment, inside, x, y);
    } else if Marked(inside, x) {
      var into, left := !inside && StartsWith(x, IN), if inside then [] else segment;
      p, d := ScansMeet(cp, [], left, into, x[3..], y);
      p := MeetsBehindMarker(cp, run, segment, inside, x, y, p, d);
    } else {
      var more, longer := if inside then run else run + [x[0]], if inside then segment + [x[0]] else segment;
      p, d := ScansMeet(cp, more, longer, inside, x[1..], y);
      MeetsBehindByte(cp, run, segment, inside, x, y, p, d);
    }
  }

  lemma MeetsAtEnd(cp: CodePage, run: seq<byte>, segment: seq<byte>, inside: bool, x: seq<byte>, y: seq<byte>)
      returns (p: seq<byte>, d: Decoded)
    requires x == [] || (!Marked(inside, x) && Undecided(inside, x))
    requires inside ==> run == []
    ensures Meets(cp, run, segment, inside, x, y, p, d)
  {
    assert ScanRuns(cp, run, segment, inside, x) == Decoded(Text(cp, run), Decoder(x, segment, inside));
    assert LastRun(run, inside, x) == run;
    NoText(cp);
    hide Text, Marked, Undecided, ScanRuns, LastRun;
    p := [];
    assert [] + Text(cp, run) == Text(cp, run);
    if inside {
      d := ScanRuns(cp, [], segment, true, x + y);
      assert FirstRun(true, x + y) == [] && run + [] == run;
      AfterNothing(d);
    } else {
      hide FirstRun;
      var v := FirstRun(false, x + y);
      RunJoins(cp, run, segment, x + y);
      RunJoins(cp, [], segment, x + y);
      d := ScanRuns(cp, [], segment, false, (x + y)[|v|..]);
      assert [] + v == v && [] + Text(cp, run + v) == Text(cp, run + v);
    }
  }

  lemma MeetsBehindMarker(cp: CodePage, run: seq<byte>, segment: seq<byte>, inside: bool, x: seq<byte>, y: seq<byte>,
                          q: seq<byte>, d: Decoded)
      returns (p: seq<byte>)
    requires Marked(inside, x) && (inside ==> run == [])
    requires Meets(cp, [], if inside then [] else segment, !inside && StartsWith(x, IN), x[3..], y, q, d)
    ensures Meets(cp, run, segment, inside, x, y, p, d)
  {
    var into, left := !inside && StartsWith(x, IN), if inside then [] else segment;
    var done := if inside then Embedded(cp, segment) else Text(cp, run);
    p := done + q;
    MarkedStays(inside, x, y);
    LastRunStep(run, inside, x);
    hide Marked, ScanRuns, LastRun, FirstRun, Embedded, Text, StartsWith, Undecided;
    ScanMarked(cp, run, segment, inside, x);
    ScanMarked(cp, run, segment, inside, x + y);
    var first := ScanRuns(cp, [], left, into, x[3..]);
    var u, v := LastRun([], into, x[3..]), FirstRun(first.state.inside, first.state.tail + y);
    Assoc3(done, q, Text(cp, u));
    Assoc3(done, q, Text(cp, u + v));
    Assoc3(done, q + Text(cp, u + v), d.out);
  }

  lemma ScanMarked(cp: CodePage, run: seq<byte>, segment: seq<byte>, inside: bool, input: seq<byte>)
    requires Marked(inside, input)
    ensures ScanRuns(cp, run, segment, inside, input)
         == After(if inside then Embedded(cp, segment) else Text(cp, run),
                  ScanRuns(cp, [], if inside then [] else segment, !inside && StartsWith(input, IN), input[3..]))
  {
    hide Embedded, Text;
  }

  lemma MeetsBehindByte(cp: CodePage, run: seq<byte>, segment: seq<byte>, inside: bool, x: seq<byte>, y: seq<byte>,
                        p: seq<byte>, d: Decoded)
    requires x != [] && !Marked(inside, x) && !Undecided(inside, x)
    requires Meets(cp, if inside then run else run + [x[0]], if inside then segment + [x[0]] else segment, inside,
                   x[1..], y, p, d)
    ensures Meets(cp, run, segment, inside, x, y, p, d)
  {
    StaysOrdinary(inside, x, y);
    LastRunStep(run, inside, x);
    hide Marked, Undecided, ScanRuns, LastRun, FirstRun, Text;
    ScanOrdinary(cp, run, segment, inside, x);
    ScanOrdinary(cp, run, segment, inside, x + y);
    assert (x + y)[0] == x[0] && (x + y)[1..] == x[1..] + y;
  }

  lemma LastRunStep(run: seq<byte>, inside: bool, x: seq<byte>)
    requires x != [] && (Marked(inside, x) || !Undecided(inside, x))
    ensures LastRun(run, inside, x)
         == if Marked(inside, x) then LastRun([], !inside && StartsWith(x, IN), x[3..])
            else LastRun(if inside then run else run + [x[0]], inside, x[1..])
  {
    hide Undecided, StartsWith;
  }

  lemma MarkedStays(inside: bool, x: seq<byte>, y: seq<byte>)
    requires Marked(inside, x)
    ensures Marked(inside, x + y) && StartsWith(x + y, IN) == StartsWith(x, IN)
    ensures |x| >= 3 && (x + y)[3..] == x[3..] + y
  {
  }

  lemma CutsAgree(p: seq<byte>, one: seq<byte>, two: seq<byte>, rest: seq<byte>)
    ensures p + one + rest == p + two + rest <==> one == two
  {
    if p + one + rest == p + two + rest {
      assert |one| == |two|;
      assert one == (p + one + rest)[|p|..|p| + |one|];
      assert two == (p + two + rest)[|p|..|p| + |two|];
    }
  }

  /** Two callbacks give the output and the state of one. */
  ghost predicate BoundaryInvisible(cp: CodePage, s: Decoder, a: seq<byte>, b: seq<byte>) {
    var first := DecodeRuns(cp, s, a);
    DecodeRuns(cp, s, a + b) == After(first.out, DecodeRuns(cp, first.state, b))
  }

  /** The text the first callback ends with, decoded without what follows. */
  function RunBefore(s: Decoder, a: seq<byte>): seq<byte> {
    LastRun([], s.inside, s.tail + a)
  }

  /** The text the next callback starts with. */
  function RunAfter(s: Decoder, b: seq<byte>): seq<byte> {
    FirstRun(s.inside, s.tail + b)
  }

  /**
    A callback boundary shows exactly when it cuts text that the code page does not
    decode in two as in one: for every code page, from any state, for any cut.
   */
  lemma BoundaryInvisibleIff(cp: CodePage, s: Decoder, a: seq<byte>, b: seq<byte>)
    ensures var u, v := RunBefore(s, a), RunAfter(DecodeRuns(cp, s, a).state, b);
            BoundaryInvisible(cp, s, a, b)
            <==> a == [] || b == [] || Text(cp, u + v) == Text(cp, u) + Text(cp, v)
  {
    hide ScanRuns, LastRun, FirstRun, Text;
    if a == [] {
      assert a + b == b;
      AfterNothing(DecodeRuns(cp, s, b));
    } else if b == [] {
      assert a + b == a;
      AfterEmpty(DecodeRuns(cp, s, a).out);
    } else {
      var p, d := ScansMeet(cp, [], s.segment, s.inside, s.tail + a, b);
      assert s.tail + (a + b) == s.tail + a + b;
      var u, v := RunBefore(s, a), RunAfter(DecodeRuns(cp, s, a).state, b);
      CutsAgree(p, Text(cp, u + v), Text(cp, u) + Text(cp, v), d.out);
      Assoc3(p, Text(cp, u), Text(cp, v));
      Assoc3(p + Text(cp, u), Text(cp, v), d.out);
    }
  }

  /** So with a code page that distributes no boundary shows. */
  lemma BoundaryInvisibleWhenDistributing(cp: CodePage, s: Decoder, a: seq<byte>, b: seq<byte>)
    requires Distributes(cp)
    ensures BoundaryInvisible(cp, s, a, b)
  {
    var u, v := RunBefore(s, a), RunAfter(DecodeRuns(cp, s, a).state, b);
    BoundaryInvisibleIff(cp, s, a, b);
    TextDistributes(cp, u, v);
  }

  lemma TextDistributes(cp: CodePage, u: seq<byte>, v: seq<byte>)
    requires u == [] || v == [] || cp(u + v) == cp(u) + cp(v)
    ensures Text(cp, u + v) == Text(cp, u) + Text(cp, v)
  {
    assert [] + v == v && u + [] == u;
    assert [] + Text(cp, v) == Text(cp, v) && Text(cp, u) + [] == Text(cp, u);
  }

  // ----- any number of callbacks

  /** A run of callbacks. */
  function DecodeAll(cp: CodePage, s: Decoder, parts: seq<seq<byte>>): Decoded
    decreases |parts|
  {
    if parts == [] then Decoded([], s)
    else
      var first := DecodeRuns(cp, s, parts[0]);
      After(first.out, DecodeAll(cp, first.state, parts[1..]))
  }

  function Concat(parts: seq<seq<byte>>): seq<byte> {
    if parts == [] then [] else parts[0] + Concat(parts[1..])
  }

  /** Each callback's last text joins on to what follows. */
  predicate RunsJoin(cp: CodePage, s: Decoder, parts: seq<seq<byte>>)
    decreases |parts|
  {
    parts == [] ||
    var next := DecodeRuns(cp, s, parts[0]).state;
    var u, v := RunBefore(s, parts[0]), RunAfter(next, Concat(parts[1..]));
    && (parts[0] == [] || Concat(parts[1..]) == [] || Text(cp, u + v) == Text(cp, u) + Text(cp, v))
    && RunsJoin(cp, next, parts[1..])
  }

  /** When the code page joins at every boundary, however many callbacks there are does not matter. */
  lemma {:induction false} ChunkingInvisible(cp: CodePage, s: Decoder, parts: seq<seq<byte>>)
    requires RunsJoin(cp, s, parts)
    ensures DecodeAll(cp, s, parts) == DecodeRuns(cp, s, Concat(parts))
    decreases |parts|
  {
    hide DecodeRuns, Text, RunBefore, RunAfter;
    if parts == [] {
      NoBytes(cp, s);
    } else {
      ChunkingInvisible(cp, DecodeRuns(cp, s, parts[0]).state, parts[1..]);
      BoundaryInvisibleIff(cp, s, parts[0], Concat(parts[1..]));
    }
  }

  lemma NoBytes(cp: CodePage, s: Decoder)
    ensures DecodeRuns(cp, s, []) == Decoded([], s)
  {
  }

  /** With a code page that distributes, it never does. */
  lemma {:induction false} DistributingJoins(cp: CodePage, s: Decoder, parts: seq<seq<byte>>)
    requires Distributes(cp)
    ensures RunsJoin(cp, s, parts)
    decreases |parts|
  {
    if parts != [] {
      hide DecodeRuns, Text, RunBefore, RunAfter;
      var next := DecodeRuns(cp, s, parts[0]).state;
      TextDistributes(cp, RunBefore(s, parts[0]), RunAfter(next, Concat(parts[1..])));
      DistributingJoins(cp, next, parts[1..]);
    }
  }

  // ----- what the decoder is for

  /** Valid text put between the markers comes out as it is, whatever the code page and however the callbacks cut it. */
  lemma EmbeddedTextSurvives(cp: CodePage, text: seq<byte>, parts: seq<seq<byte>>)
    requires FromUtf8(text).Valid? && Concat(parts) == Marker(IN) + text + Marker(OUT)
    ensures DecodeAll(cp, FRESH, parts) == Decoded(text, FRESH)
  {
    NoMarkerByte(text);
    var all := Concat(parts);
    hide LastRun, DecodeAll, DecodeRuns, RunsJoin;
    forall i | 0 <= i <= |all| ensures RunBefore(FRESH, all[..i]) == [] {
      NoRunInMarkedText(text, i);
      assert FRESH.tail + all[..i] == all[..i];
    }
    QuietCutsJoin(cp, FRESH, parts);
    ChunkingInvisible(cp, FRESH, parts);
    SegmentCollects(cp, [], text);
    assert [] + text == text;
    hide *;
    SegmentOpens(cp, text);
    ValidIsEmbedded(cp, text);
  }

  /** No cut leaves a run of text before it. */
  ghost predicate QuietCuts(s: Decoder, bytes: seq<byte>) {
    forall i :: 0 <= i <= |bytes| ==> RunBefore(s, bytes[..i]) == []
  }

  lemma {:induction false} QuietCutsJoin(cp: CodePage, s: Decoder, parts: seq<seq<byte>>)
    requires QuietCuts(s, Concat(parts))
    ensures RunsJoin(cp, s, parts)
    decreases |parts|
  {
    if parts != [] {
      var a, rest := parts[0], Concat(parts[1..]);
      var next := DecodeRuns(cp, s, a).state;
      hide RunAfter;
      assert (a + rest)[..|a|] == a;
      assert RunBefore(s, a) == [];
      TextDistributes(cp, [], RunAfter(next, rest));
      forall i | 0 <= i <= |rest| ensures RunBefore(next, rest[..i]) == [] {
        assert (a + rest)[..|a| + i] == a + rest[..i];
        QuietGoesOn(cp, s, a, rest[..i]);
      }
      QuietCutsJoin(cp, next, parts[1..]);
    }
  }

  lemma QuietGoesOn(cp: CodePage, s: Decoder, a: seq<byte>, b: seq<byte>)
    requires RunBefore(s, a) == [] == RunBefore(s, a + b)
    ensures RunBefore(DecodeRuns(cp, s, a).state, b) == []
  {
    if a == [] {
      assert a + b == b;
    } else {
      LastRunGoesOn(cp, [], s.segment, s.inside, s.tail + a, b);
      assert s.tail + (a + b) == s.tail + a + b;
    }
  }

  /** The run at the end of more input goes on from the run and the state before it. */
  lemma {:induction false} LastRunGoesOn(cp: CodePage, run: seq<byte>, segment: seq<byte>, inside: bool,
                                         x: seq<byte>, y: seq<byte>)
    ensures var st := ScanRuns(cp, run, segment, inside, x).state;
            LastRun(run, inside, x + y) == LastRun(LastRun(run, inside, x), st.inside, st.tail + y)
    decreases |x|
  {
    if x == [] || (!Marked(inside, x) && Undecided(inside, x)) {
      assert x == [] ==> x + y == y;
    } else if Marked(inside, x) {
      LastRunStep(run, inside, x);
      MarkedStays(inside, x, y);
      LastRunStep(run, inside, x + y);
      hide Marked, Undecided, StartsWith, ScanRuns, LastRun, Text, Embedded;
      LastRunGoesOn(cp, [], if inside then [] else segment, !inside && StartsWith(x, IN), x[3..], y);
      ScanMarked(cp, run, segment, inside, x);
    } else {
      LastRunStep(run, inside, x);
      StaysOrdinary(inside, x, y);
      LastRunStep(run, inside, x + y);
      hide Marked, Undecided, StartsWith, ScanRuns, LastRun, Text, Embedded;
      LastRunGoesOn(cp, if inside then run else run + [x[0]], if inside then segment + [x[0]] else segment, inside,
                    x[1..], y);
      ScanOrdinary(cp, run, segment, inside, x);
      assert (x + y)[1..] == x[1..] + y && (x + y)[0] == x[0];
    }
  }

  lemma NoRunInMarkedText(text: seq<byte>, i: nat)
    requires 0xFF !in text && i <= |text| + 6
    ensures LastRun([], false, (Marker(IN) + text + Marker(OUT))[..i]) == []
  {
    var all := Marker(IN) + text + Marker(OUT);
    if i >= 3 {
      assert StartsWith(all[..i], IN) && all[..i][3..] == (text + Marker(OUT))[..i - 3];
      NoRunInSegment(text, i - 3);
    } else {
      assert MayBecome(all[..i], IN);
    }
  }

  lemma {:induction false} NoRunInSegment(text: seq<byte>, i: nat)
    requires 0xFF !in text && i <= |text| + 3
    ensures LastRun([], true, (text + Marker(OUT))[..i]) == []
    decreases |text|
  {
    var input := (text + Marker(OUT))[..i];
    if text == [] {
      assert i < 3 ==> MayBecome(input, OUT);
      assert i == 3 ==> StartsWith(input, OUT) && input[3..] == [];
    } else if i > 0 {
      assert i > 1 ==> input[1] != 0xFF;
      assert input[1..] == (text[1..] + Marker(OUT))[..i - 1];
      NoRunInSegment(text[1..], i - 1);
    }
  }

  lemma SegmentOpens(cp: CodePage, text: seq<byte>)
    ensures DecodeRuns(cp, FRESH, Marker(IN) + text + Marker(OUT)) == ScanRuns(cp, [], [], true, text + Marker(OUT))
  {
    var input := Marker(IN) + text + Marker(OUT);
    assert FRESH.tail + input == input && input[3..] == text + Marker(OUT);
    NoText(cp);
    AfterNothing(ScanRuns(cp, [], [], true, text + Marker(OUT)));
  }

  lemma ValidIsEmbedded(cp: CodePage, text: seq<byte>)
    ensures FromUtf8(text).Valid? ==> Embedded(cp, text) == text
  {
  }

  lemma {:induction false} NoMarkerByte(text: seq<byte>)
    requires FromUtf8(text).Valid?
    ensures 0xFF !in text
  {
    if text != [] {
      var n := DecodeStep(text).len;
      NoMarkerByte(text[n..]);
      StepShape(text);
      assert text == text[..n] + text[n..];
    }
  }

  lemma {:induction false} SegmentCollects(cp: CodePage, segment: seq<byte>, text: seq<byte>)
    requires 0xFF !in text
    ensures ScanRuns(cp, [], segment, true, text + Marker(OUT)) == Decoded(Embedded(cp, segment + text), FRESH)
    decreases |text|
  {
    hide Embedded;
    var input := text + Marker(OUT);
    if text == [] {
      assert input[..3] == Marker(OUT) && input[3..] == [] && segment + text == segment;
      assert Embedded(cp, segment) + [] == Embedded(cp, segment);
    } else {
      assert input[1] != 0xFF;
      assert input[1..] == text[1..] + Marker(OUT);
      SegmentCollects(cp, segment + [text[0]], text[1..]);
      assert segment + [text[0]] + text[1..] == segment + text;
    }
  }

  // ----- double-byte code pages

  /** Lead bytes take the byte behind them; the last one may find none. */
  datatype DoubleByte = DoubleByte(lead: byte -> bool, single: byte -> seq<byte>, pair: (byte, byte) -> seq<byte>,
                                   alone: byte -> seq<byte>)
  {
    function Decode(bytes: seq<byte>): seq<byte> {
      if bytes == [] then []
      else if !lead(bytes[0]) then single(bytes[0]) + Decode(bytes[1..])
      else if |bytes| == 1 then alone(bytes[0])
      else pair(bytes[0], bytes[1]) + Decode(bytes[2..])
    }

    /** The last byte is a lead byte without its second byte. */
    predicate Dangles(bytes: seq<byte>) {
      bytes != [] &&
      if !lead(bytes[0]) then Dangles(bytes[1..])
      else |bytes| == 1 || Dangles(bytes[2..])
    }

    /** A lead byte alone never looks like the start of a character it leads, or the other way round. */
    ghost predicate TellsApart() {
      forall l: byte, x: byte :: lead(l) ==> !(alone(l) <= pair(l, x)) && !(pair(l, x) <= alone(l))
    }
  }

  function PageOf(page: DoubleByte): CodePage {
    (bytes: seq<byte>) => page.Decode(bytes)
  }

  /** Such a page distributes at a cut exactly when the cut does not follow a dangling lead byte. */
  lemma {:induction false} DoubleByteDistributesIff(page: DoubleByte, u: seq<byte>, v: seq<byte>)
    requires page.TellsApart() && v != []
    ensures page.Decode(u + v) == page.Decode(u) + page.Decode(v) <==> !page.Dangles(u)
    decreases |u|
  {
    if u == [] {
      assert u + v == v && [] + page.Decode(v) == page.Decode(v);
    } else {
      var s := u + v;
      assert s[0] == u[0] && s[1..] == u[1..] + v;
      if !page.lead(u[0]) {
        DoubleByteDistributesIff(page, u[1..], v);
        JoinsBehind(page.single(u[0]), page.Decode(u[1..]), page.Decode(v), page.Decode(u[1..] + v));
      } else if |u| == 1 {
        assert s[1] == v[0] && s[2..] == v[1..];
        if page.Decode(s) == page.alone(u[0]) + page.Decode(v) {
          StartsAlike(page.pair(u[0], v[0]), page.alone(u[0]), page.Decode(v[1..]), page.Decode(v));
        }
      } else {
        assert s[1] == u[1] && s[2..] == u[2..] + v;
        DoubleByteDistributesIff(page, u[2..], v);
        JoinsBehind(page.pair(u[0], u[1]), page.Decode(u[2..]), page.Decode(v), page.Decode(u[2..] + v));
      }
    }
  }

  lemma JoinsBehind(c: seq<byte>, a: seq<byte>, b: seq<byte>, ab: seq<byte>)
    ensures c + ab == c + a + b <==> ab == a + b
  {
    Assoc3(c, a, b);
    if c + ab == c + (a + b) {
      assert ab == (c + ab)[|c|..] && a + b == (c + (a + b))[|c|..];
    }
  }

  lemma StartsAlike(c: seq<byte>, d: seq<byte>, x: seq<byte>, y: seq<byte>)
    requires c + x == d + y
    ensures c <= d || d <= c
  {
    var n := if |c| < |d| then |c| else |d|;
    assert c[..n] == (c + x)[..n] && d[..n] == (d + y)[..n];
  }

  /**
    With a double-byte code page a callback boundary shows exactly when it comes
    between the two bytes of a character.
   */
  lemma DoubleByteBoundaryInvisibleIff(page: DoubleByte, s: Decoder, a: seq<byte>, b: seq<byte>)
    requires page.TellsApart()
    ensures var v := RunAfter(DecodeRuns(PageOf(page), s, a).state, b);
            BoundaryInvisible(PageOf(page), s, a, b)
            <==> a == [] || b == [] || v == [] || !page.Dangles(RunBefore(s, a))
  {
    var cp := PageOf(page);
    hide DecodeRuns, RunBefore, RunAfter, BoundaryInvisible;
    var u, v := RunBefore(s, a), RunAfter(DecodeRuns(cp, s, a).state, b);
    BoundaryInvisibleIff(cp, s, a, b);
    if u == [] || v == [] {
      TextDistributes(cp, u, v);
    } else {
      DoubleByteDistributesIff(page, u, v);
    }
  }

  /** One with lead bytes 81 to FE: pairs are characters from U+4000 on, and a lead byte alone is a question mark. */
  function Wide(): DoubleByte {
    DoubleByte(b => 0x81 <= b <= 0xFE,
               b => if b < 0x80 then [b] else [0x3F],
               (l, x) => [0xE4, 0x80 + l / 4, 0x80 + x / 4],
               _ => [0x3F])
  }

  lemma WideTellsApart()
    ensures Wide().TellsApart()
  {
    forall l: byte, x: byte | Wide().lead(l)
      ensures !(Wide().alone(l) <= Wide().pair(l, x)) && !(Wide().pair(l, x) <= Wide().alone(l))
    {
      assert Wide().alone(l)[0] == 0x3F && Wide().pair(l, x)[0] == 0xE4;
    }
  }

  /** Cut in two, one of its characters comes out as two others. */
  lemma SplitCharacterShows()
    ensures DecodeRuns(PageOf(Wide()), FRESH, [0x82, 0x40]) == Decoded([0xE4, 0xA0, 0x90], FRESH)
    ensures DecodeAll(PageOf(Wide()), FRESH, [[0x82], [0x40]]) == Decoded([0x3F, 0x40], FRESH)
    ensures !BoundaryInvisible(PageOf(Wide()), FRESH, [0x82], [0x40])
  {
    var cp := PageOf(Wide());
    var a, b: seq<byte> := [0x82], [0x40];
    WideBytes();
    OneByte(cp, 0x82);
    OneByte(cp, 0x40);
    TwoBytes(cp, 0x82, 0x40);
    hide PageOf, Wide, DecodeRuns;
    assert a + b == [0x82, 0x40] && [a, b][1..] == [b] && [b][1..] == [];
  }

  lemma WideBytes()
    ensures PageOf(Wide())([0x82]) == [0x3F] && PageOf(Wide())([0x40]) == [0x40]
    ensures PageOf(Wide())([0x82, 0x40]) == [0xE4, 0xA0, 0x90]
  {
    var ab: seq<byte> := [0x82, 0x40];
    assert ab[2..] == [] && Wide().Decode([]) == [];
    assert Wide().pair(0x82, 0x40) == [0xE4, 0xA0, 0x90];
    var b: seq<byte> := [0x40];
    assert b[1..] == [];
  }

  lemma OneByte(cp: CodePage, b: byte)
    requires b != IN && b != OUT
    ensures DecodeRuns(cp, FRESH, [b]) == Decoded(cp([b]), FRESH)
  {
    assert [] + [b] == [b] && [b][1..] == [];
    assert ScanRuns(cp, [b], [], false, []) == Decoded(cp([b]), FRESH);
  }

  lemma TwoBytes(cp: CodePage, a: byte, b: byte)
    requires a != IN && a != OUT && b != IN && b != OUT
    ensures DecodeRuns(cp, FRESH, [a, b]) == Decoded(cp([a, b]), FRESH)
  {
    assert [] + [a, b] == [a, b] && [a, b][1..] == [b] && [b][1..] == [] && [] + [a] == [a] && [a] + [b] == [a, b];
    assert ScanRuns(cp, [a, b], [], false, []) == Decoded(cp([a, b]), FRESH);
    assert ScanRuns(cp, [a], [], false, [b]) == ScanRuns(cp, [a, b], [], false, []);
  }

  // ----- the decoder's loop

  predicate MarkerAt(s: seq<byte>, i: nat, lead: byte) {
    i + 3 <= |s| && s[i] == lead && s[i + 1] == 0xFF && s[i + 2] == 0xFE
  }

  lemma MarkerIs(s: seq<byte>, i: nat, lead: byte)
    requires i + 3 <= |s|
    ensures s[i..i + 3] == Marker(lead) <==> MarkerAt(s, i, lead)
  {
    var slice := s[i..i + 3];
    assert slice == [slice[0], slice[1], slice[2]];
  }

  /** Index of the first occurrence of the marker. */
  method FindMarker(s: seq<byte>, lead: byte) returns (at: Option<nat>)
    ensures at.None? ==> forall i :: 0 <= i <= |s| ==> !MarkerAt(s, i, lead)
    ensures at.Some? ==> MarkerAt(s, at.value, lead) && forall i :: 0 <= i < at.value ==> !MarkerAt(s, i, lead)
  {
    var i := 0;
    while i + 3 <= |s|
      invariant i <= |s|
      invariant forall k :: 0 <= k < i ==> !MarkerAt(s, k, lead)
    {
      MarkerIs(s, i, lead);
      if s[i..i + 3] == Marker(lead) {
        return Some(i);
      }
      i := i + 1;
    }
    return None;
  }

  /** The last `n` bytes are the first `n` of the marker. */
  predicate EndsWith(s: seq<byte>, n: nat, lead: byte) {
    n <= |s| && MayBecome(s[|s| - n..], lead)
  }

  ghost predicate NoneLonger(s: seq<byte>, n: nat, lead: byte) {
    forall k :: n < k <= |s| ==> !EndsWith(s, k, lead)
  }

  lemma PrefixIs(bytes: seq<byte>, n: nat, lead: byte)
    requires n <= 2 && n <= |bytes|
    ensures bytes[|bytes| - n..] == Marker(lead)[..n] <==> EndsWith(bytes, n, lead)
  {
    var end := bytes[|bytes| - n..];
    assert n == 1 ==> end == [end[0]];
    assert n == 2 ==> end == [end[0], end[1]];
    assert Marker(lead)[..1] == [lead] && Marker(lead)[..2] == [lead, 0xFF];
  }

  /** Length of the longest end of `bytes` that is a proper prefix of one of the markers. */
  method TrailingMarkerPrefixLen(bytes: seq<byte>, leads: seq<byte>) returns (keep: nat)
    ensures keep <= 2 && keep <= |bytes|
    ensures keep > 0 ==> exists lead :: lead in leads && EndsWith(bytes, keep, lead)
    ensures forall lead :: lead in leads ==> NoneLonger(bytes, keep, lead)
  {
    keep := 0;
    for m := 0 to |leads|
      invariant keep <= 2 && keep <= |bytes|
      invariant keep > 0 ==> exists k :: 0 <= k < m && EndsWith(bytes, keep, leads[k])
      invariant forall k :: 0 <= k < m ==> NoneLonger(bytes, keep, leads[k])
    {
      hide EndsWith;
      var n := LongestPrefix(bytes, leads[m]);
      keep := if keep > n then keep else n;
    }
  }

  /** The inner loop: prefixes are tried longest first. */
  method LongestPrefix(bytes: seq<byte>, lead: byte) returns (n: nat)
    ensures n <= 2 && n <= |bytes|
    ensures n > 0 ==> EndsWith(bytes, n, lead)
    ensures NoneLonger(bytes, n, lead)
  {
    n := 2;
    while n > 0
      invariant n <= 2
      invariant NoneLonger(bytes, n, lead)
    {
      if n <= |bytes| {
        PrefixIs(bytes, n, lead);
        if bytes[|bytes| - n..] == Marker(lead)[..n] {
          return n;
        }
      }
      n := n - 1;
    }
  }

  /** A stretch without marker starts joins the run, or the segment. */
  lemma {:induction false} ScanStretch(cp: CodePage, run: seq<byte>, segment: seq<byte>, inside: bool,
                                       input: seq<byte>, n: nat)
    requires n <= |input|
    requires forall i :: 0 <= i < n ==> !Marked(inside, input[i..]) && !Undecided(inside, input[i..])
    ensures ScanRuns(cp, run, segment, inside, input)
            == if inside then ScanRuns(cp, run, segment + input[..n], true, input[n..])
               else ScanRuns(cp, run + input[..n], segment, false, input[n..])
    decreases n
  {
    hide StartsWith, MayBecome, Undecided, Marked;
    assert input[0..] == input;
    if n == 0 {
      assert segment + input[..0] == segment && run + input[..0] == run;
    } else {
      forall i | 0 <= i < n - 1 ensures !Marked(inside, input[1..][i..]) && !Undecided(inside, input[1..][i..]) {
        assert input[1..][i..] == input[i + 1..];
      }
      var b := [input[0]];
      ScanStretch(cp, if inside then run else run + b, if inside then segment + b else segment, inside,
                  input[1..], n - 1);
      StretchStep(input, segment, n);
      StretchStep(input, run, n);
      ScanOrdinary(cp, run, segment, inside, input);
    }
  }

  lemma StretchStep(input: seq<byte>, s: seq<byte>, n: nat)
    requires 0 < n <= |input|
    ensures s + [input[0]] + input[1..][..n - 1] == s + input[..n] && input[1..][n - 1..] == input[n..]
  {
  }

  /** Before the next marker every byte is ordinary, since too much follows to be undecided. */
  lemma OrdinaryBefore(inside: bool, input: seq<byte>, next: nat)
    requires next + 3 <= |input|
    requires forall i :: 0 <= i < next ==> !MarkerAt(input, i, OUT) && (inside || !MarkerAt(input, i, IN))
    ensures forall i :: 0 <= i < next ==> !Marked(inside, input[i..]) && !Undecided(inside, input[i..])
  {
    forall i | 0 <= i < next ensures !Marked(inside, input[i..]) && !Undecided(inside, input[i..]) {
      assert !MarkerAt(input, i, OUT) && (inside || !MarkerAt(input, i, IN));
    }
  }

  /** Without a marker, every byte is ordinary but for the kept end, which is undecided. */
  lemma OrdinaryButEnd(inside: bool, input: seq<byte>, keep: nat)
    requires keep <= 2 && keep <= |input|
    requires forall i :: 0 <= i <= |input| ==> !MarkerAt(input, i, OUT) && (inside || !MarkerAt(input, i, IN))
    requires keep > 0 ==> EndsWith(input, keep, OUT) || (!inside && EndsWith(input, keep, IN))
    requires NoneLonger(input, keep, OUT) && (inside || NoneLonger(input, keep, IN))
    ensures forall i :: 0 <= i < |input| - keep ==> !Marked(inside, input[i..]) && !Undecided(inside, input[i..])
    ensures keep > 0 ==> Undecided(inside, input[|input| - keep..])
  {
    forall i | 0 <= i < |input| - keep ensures !Marked(inside, input[i..]) && !Undecided(inside, input[i..]) {
      assert !MarkerAt(input, i, OUT) && (inside || !MarkerAt(input, i, IN));
      assert !EndsWith(input, |input| - i, OUT) && (inside || !EndsWith(input, |input| - i, IN));
    }
  }

  // ----- what the loop still owes

  /** Scanning the rest of the input after what is out already completes `goal`. */
  ghost predicate Owes(cp: CodePage, out: seq<byte>, segment: seq<byte>, inside: bool, rest: seq<byte>, goal: Decoded) {
    After(out, ScanRuns(cp, [], segment, inside, rest)) == goal
  }

  lemma OwesAll(cp: CodePage, s: Decoder, bytes: seq<byte>)
    requires bytes != []
    ensures Owes(cp, [], s.segment, s.inside, (s.tail + bytes)[0..], DecodeRuns(cp, s, bytes))
  {
    hide ScanRuns;
    assert (s.tail + bytes)[0..] == s.tail + bytes;
    AfterNothing(ScanRuns(cp, [], s.segment, s.inside, s.tail + bytes));
  }

  lemma OwesPastMarker(cp: CodePage, out: seq<byte>, segment: seq<byte>, input: seq<byte>, c: nat, lead: byte,
                       goal: Decoded)
    requires c + 3 <= |input| && MarkerAt(input[c..], 0, lead) && (lead == IN || lead == OUT)
    requires Owes(cp, out, segment, false, input[c..], goal)
    ensures Owes(cp, out, segment, lead == IN, input[c + 3..], goal)
  {
    assert input[c..][3..] == input[c + 3..];
    NoText(cp);
    AfterNothing(ScanRuns(cp, [], segment, lead == IN, input[c + 3..]));
  }

  lemma OwesPastText(cp: CodePage, out: seq<byte>, segment: seq<byte>, input: seq<byte>, c: nat, n: nat, goal: Decoded)
    requires c + n <= |input|
    requires forall i :: 0 <= i < n ==> !Marked(false, input[c..][i..]) && !Undecided(false, input[c..][i..])
    requires var rest := input[c + n..]; rest == [] || Marked(false, rest) || Undecided(false, rest)
    requires Owes(cp, out, segment, false, input[c..], goal)
    ensures Owes(cp, out + Text(cp, input[c..][..n]), segment, false, input[c + n..], goal)
  {
    hide ScanRuns, Marked, Undecided, Text;
    var rest := input[c..];
    assert rest[n..] == input[c + n..] && [] + rest[..n] == rest[..n];
    ScanStretch(cp, [], segment, false, rest, n);
    RunEnds(cp, rest[..n], segment, rest[n..]);
    Assoc3(out, Text(cp, rest[..n]), ScanRuns(cp, [], segment, false, rest[n..]).out);
  }

  lemma OwesPastSegment(cp: CodePage, out: seq<byte>, segment: seq<byte>, input: seq<byte>, c: nat, n: nat,
                        goal: Decoded)
    requires c + n <= |input|
    requires forall i :: 0 <= i < n ==> !Marked(true, input[c..][i..]) && !Undecided(true, input[c..][i..])
    requires Owes(cp, out, segment, true, input[c..], goal)
    ensures Owes(cp, out, segment + input[c..][..n], true, input[c + n..], goal)
  {
    hide ScanRuns, Marked, Undecided;
    assert input[c..][n..] == input[c + n..];
    ScanStretch(cp, [], segment, true, input[c..], n);
  }

  lemma OwesPastEnd(cp: CodePage, out: seq<byte>, segment: seq<byte>, input: seq<byte>, c: nat, goal: Decoded)
    requires c + 3 <= |input| && MarkerAt(input, c, OUT)
    requires Owes(cp, out, segment, true, input[c..], goal)
    ensures Owes(cp, out + Embedded(cp, segment), [], false, input[c + 3..], goal)
  {
    hide Embedded, Text;
    assert input[c..][3..] == input[c + 3..];
    Assoc3(out, Embedded(cp, segment), ScanRuns(cp, [], [], false, input[c + 3..]).out);
  }

  lemma OwesNothing(cp: CodePage, out: seq<byte>, segment: seq<byte>, inside: bool, rest: seq<byte>, goal: Decoded)
    requires |rest| <= 2 && (rest != [] ==> Undecided(inside, rest))
    requires Owes(cp, out, segment, inside, rest, goal)
    ensures Decoded(out, Decoder(rest, segment, inside)) == goal
  {
    NoText(cp);
    assert ScanRuns(cp, [], segment, inside, rest) == Decoded([], Decoder(rest, segment, inside));
  }

  lemma MarkedAtNext(input: seq<byte>, next: nat)
    requires next + 3 <= |input| && (MarkerAt(input, next, IN) || MarkerAt(input, next, OUT))
    ensures Marked(false, input[next..])
  {
  }

  class ConsoleDecodeState {
    var markerTail: seq<byte>
    var utf8Segment: seq<byte>
    var inUtf8Segment: bool

    function View(): Decoder
      reads this
    {
      Decoder(markerTail, utf8Segment, inUtf8Segment)
    }

    constructor ()
      ensures View() == FRESH
    {
      markerTail, utf8Segment, inUtf8Segment := [], [], false;
    }

    /** `decode_console_bytes_with_state`. */
    method DecodeConsoleBytes(cp: CodePage, bytes: seq<byte>) returns (out: seq<byte>)
      modifies this
      ensures Decoded(out, View()) == DecodeRuns(cp, old(View()), bytes)
    {
      out := [];
      if bytes == [] {
        return;
      }
      hide Owes, DecodeRuns, MarkerAt, EndsWith, NoneLonger, Marked, Undecided, Embedded, Marker;
      ghost var goal := DecodeRuns(cp, View(), bytes);
      OwesAll(cp, View(), bytes);
      var input := markerTail + bytes;
      markerTail := [];
      var cursor := 0;
      while cursor < |input|
        modifies this
        invariant cursor <= |input| && markerTail == []
        invariant Owes(cp, out, utf8Segment, inUtf8Segment, input[cursor..], goal)
      {
        if inUtf8Segment {
          var done, emitted := InsideTurn(cp, input, cursor, out, goal);
          out := out + emitted;
          if done.None? {
            return;
          }
          cursor := done.value;
        } else {
          var done, emitted := OutsideTurn(cp, input, cursor, out, goal);
          out := out + emitted;
          if done.None? {
            return;
          }
          cursor := done.value;
        }
      }
      OwesNothing(cp, out, utf8Segment, inUtf8Segment, input[cursor..], goal);
    }

    /** One pass of the loop outside a segment: the new cursor, or `None` when the input is used up. */
    method OutsideTurn(cp: CodePage, input: seq<byte>, cursor: nat, ghost out: seq<byte>, ghost goal: Decoded)
      returns (next: Option<nat>, emitted: seq<byte>)
      requires cursor < |input| && markerTail == [] && !inUtf8Segment
      requires Owes(cp, out, utf8Segment, false, input[cursor..], goal)
      modifies this
      ensures next.None? ==> Decoded(out + emitted, View()) == goal
      ensures next.Some? ==> cursor < next.value <= |input| && markerTail == []
      ensures next.Some? ==> Owes(cp, out + emitted, utf8Segment, inUtf8Segment, input[next.value..], goal)
    {
      hide Text, Owes, EndsWith, NoneLonger, Marked, Undecided, Marker, ScanRuns;
      var remaining := input[cursor..];
      emitted := [];
      assert out + emitted == out;
      if |remaining| >= 3 {
        MarkerIs(remaining, 0, IN);
        MarkerIs(remaining, 0, OUT);
        if remaining[0..3] == Marker(IN) {
          OwesPastMarker(cp, out, utf8Segment, input, cursor, IN, goal);
          inUtf8Segment := true;
          return Some(cursor + 3), [];
        }
        if remaining[0..3] == Marker(OUT) {
          OwesPastMarker(cp, out, utf8Segment, input, cursor, OUT, goal);
          return Some(cursor + 3), [];
        }
      }
      var nextIn := FindMarker(remaining, IN);
      var nextOut := FindMarker(remaining, OUT);
      var found := match (nextIn, nextOut)
        case (Some(a), Some(b)) => Some(if a < b then a else b)
        case (Some(a), None) => Some(a)
        case (None, Some(b)) => Some(b)
        case (None, None) => None;
      if found.Some? {
        OrdinaryBefore(false, remaining, found.value);
        MarkedAtNext(remaining, found.value);
        assert remaining[found.value..] == input[cursor + found.value..];
        OwesPastText(cp, out, utf8Segment, input, cursor, found.value, goal);
        return Some(cursor + found.value), Text(cp, remaining[..found.value]);
      }
      emitted := LastStretch(cp, input, cursor, out, goal);
      return None, emitted;
    }

    /** Outside a segment with no marker ahead: decodes all but an end that may become one. */
    method LastStretch(cp: CodePage, input: seq<byte>, cursor: nat, ghost out: seq<byte>, ghost goal: Decoded)
      returns (emitted: seq<byte>)
      requires cursor < |input| && markerTail == [] && !inUtf8Segment
      requires Owes(cp, out, utf8Segment, false, input[cursor..], goal)
      requires var rest := input[cursor..];
               forall i :: 0 <= i <= |rest| ==> !MarkerAt(rest, i, OUT) && !MarkerAt(rest, i, IN)
      modifies this
      ensures Decoded(out + emitted, View()) == goal
    {
      hide Text, Owes, EndsWith, NoneLonger, Marked, Undecided, MarkerAt;
      var remaining := input[cursor..];
      var keep := TrailingMarkerPrefixLen(remaining, [IN, OUT]);
      var split := |remaining| - keep;
      assert IN in [IN, OUT] && OUT in [IN, OUT];
      OrdinaryButEnd(false, remaining, keep);
      assert input[cursor + split..] == remaining[split..];
      OwesPastText(cp, out, utf8Segment, input, cursor, split, goal);
      OwesNothing(cp, out + Text(cp, remaining[..split]), utf8Segment, false, remaining[split..], goal);
      markerTail := remaining[split..];
      emitted := Text(cp, remaining[..split]);
    }

    /** One pass of the loop inside a segment. */
    method InsideTurn(cp: CodePage, input: seq<byte>, cursor: nat, ghost out: seq<byte>, ghost goal: Decoded)
      returns (next: Option<nat>, emitted: seq<byte>)
      requires cursor < |input| && markerTail == [] && inUtf8Segment
      requires Owes(cp, out, utf8Segment, true, input[cursor..], goal)
      modifies this
      ensures next.None? ==> Decoded(out + emitted, View()) == goal
      ensures next.Some? ==> cursor < next.value <= |input| && markerTail == []
      ensures next.Some? ==> Owes(cp, out + emitted, utf8Segment, inUtf8Segment, input[next.value..], goal)
    {
      hide Text, Owes, EndsWith, NoneLonger, Marked, Undecided, Marker, Embedded;
      var remaining := input[cursor..];
      var endRel := FindMarker(remaining, OUT);
      if endRel.Some? {
        var end := cursor + endRel.value;
        OrdinaryBefore(true, remaining, endRel.value);
        OwesPastSegment(cp, out, utf8Segment, input, cursor, endRel.value, goal);
        utf8Segment := utf8Segment + remaining[..endRel.value];
        OwesPastEnd(cp, out, utf8Segment, input, end, goal);
        emitted := Embedded(cp, utf8Segment);
        utf8Segment := [];
        inUtf8Segment := false;
        return Some(end + 3), emitted;
      }
      var keep := TrailingMarkerPrefixLen(remaining, [OUT]);
      var split := |remaining| - keep;
      assert OUT in [OUT];
      OrdinaryButEnd(true, remaining, keep);
      OwesPastSegment(cp, out, utf8Segment, input, cursor, split, goal);
      utf8Segment := utf8Segment + remaining[..split];
      assert input[cursor + split..] == remaining[split..];
      OwesNothing(cp, out, utf8Segment, true, remaining[split..], goal);
      markerTail := remaining[split..];
      emitted := [];
      assert out + emitted == out;
      return None, emitted;
    }
  }
}
