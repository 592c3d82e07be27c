/** A results file with one line of JSON an answer, cut off by a crash anywhere
    and taken up again: what is read back, what is asked again, what it costs. */
module ResultsLog {
  import opened Options

  type Key = string

  /** A line, as far as resuming goes; `body` is all the rest. */
  datatype Line = Line(key: Key, answered: bool, calls: nat, body: string)

  /** JSON text of a line, and back. A text that is no line of this version gives None. */
  datatype Codec = Codec(encode: Line -> string, decode: string -> Option<Line>)

  predicate At(p: string, s: string, i: nat) {
    i + |p| <= |s| && s[i..i + |p|] == p
  }

  ghost predicate Part(p: string, s: string) {
    exists i :: At(p, s, i)
  }

  /** Lines decode to themselves, contain no newline, and no proper part of one
      is a line: it lacks a brace, or has its quotes escaped. */
  ghost predicate Lawful(c: Codec) {
    && (forall l :: c.decode(c.encode(l)) == Some(l) && '\n' !in c.encode(l) && c.encode(l) != "")
    && (forall l, p :: Part(p, c.encode(l)) && p != c.encode(l) ==> c.decode(p) == None)
  }

  // ---------------------------------------------------------------- reading

  /** Where str.splitlines breaks a text. */
  predicate Breaks(c: char) {
    c == '\n' || c == '\r' || c == '\U{0b}' || c == '\U{0c}' || c == '\U{1c}' || c == '\U{1d}' || c == '\U{1e}'
    || c == '\U{85}' || c == '\U{2028}' || c == '\U{2029}'
  }

  predicate Clean(s: string) {
    forall c | c in s :: !Breaks(c)
  }

  /** The pieces between breaks; the last may be empty, and then holds no line. */
  function Split(s: string): (pieces: seq<string>)
    ensures pieces != []
  {
    if s == "" then [""]
    else
      var before, c := Split(s[..|s|-1]), s[|s|-1];
      if Breaks(c) then before + [""] else before[..|before|-1] + [before[|before|-1] + [c]]
  }

  /** The last line of every key, of pieces of which some are no lines. */
  function Latest(c: Codec, pieces: seq<string>): map<Key, Line> {
    if pieces == [] then map[]
    else
      var found := Latest(c, pieces[..|pieces|-1]);
      match c.decode(pieces[|pieces|-1])
      case None => found
      case Some(line) => found[line.key := line]
  }

  /** _read_lines */
  function Read(c: Codec, text: string): map<Key, Line> {
    Latest(c, Split(text))
  }

  /** The text of complete lines. */
  function Log(c: Codec, lines: seq<Line>): string {
    if lines == [] then "" else Log(c, lines[..|lines|-1]) + c.encode(lines[|lines|-1]) + "\n"
  }

  lemma SplitStep(t: string, c: char)
    ensures var before := Split(t);
      Split(t + [c]) == if Breaks(c) then before + [""] else before[..|before|-1] + [before[|before|-1] + [c]]
  {
    assert (t + [c])[..|t|] == t;
  }

  lemma Extend(x: seq<string>, y: seq<string>, c: char)
    requires y != []
    ensures var z := x + y;
      z[..|z|-1] + [z[|z|-1] + [c]] == x + (y[..|y|-1] + [y[|y|-1] + [c]]) && z + [""] == x + (y + [""])
  {
  }

  lemma JoinOneMore(a: string, t: string, c: char)
    requires Split(a + ['\n'] + t) == Split(a) + Split(t)
    ensures Split(a + ['\n'] + (t + [c])) == Split(a) + Split(t + [c])
  {
    hide Split, Breaks;
    SplitStep(a + ['\n'] + t, c);
    SplitStep(t, c);
    Extend(Split(a), Split(t), c);
    assert a + ['\n'] + t + [c] == a + ['\n'] + (t + [c]);
  }

  lemma {:induction false} SplitJoin(a: string, b: string)
    ensures Split(a + ['\n'] + b) == Split(a) + Split(b)
    decreases |b|
  {
    if b == "" {
      assert a + ['\n'] + b == a + ['\n'];
      SplitStep(a, '\n');
    } else {
      var t, c := b[..|b|-1], b[|b|-1];
      SplitJoin(a, t);
      JoinOneMore(a, t, c);
      assert t + [c] == b;
    }
  }

  lemma {:induction false} SplitClean(s: string)
    requires Clean(s)
    ensures Split(s) == [s]
    decreases |s|
  {
    if s != "" {
      SplitClean(s[..|s|-1]);
      assert s == s[..|s|-1] + [s[|s|-1]];
    }
  }

  lemma {:induction false} LatestJoin(c: Codec, a: seq<string>, b: seq<string>)
    ensures Latest(c, a + b) == Latest(c, a) + Latest(c, b)
    decreases |b|
  {
    if b == [] {
      assert a + b == a;
    } else {
      assert (a + b)[..|a + b|-1] == a + b[..|b|-1];
      LatestJoin(c, a, b[..|b|-1]);
    }
  }

  /** A piece is part of the text, and shorter if the text has a break. */
  lemma {:induction false} PiecesAreParts(s: string, k: nat)
    requires k < |Split(s)|
    ensures Part(Split(s)[k], s)
    ensures k == |Split(s)| - 1 ==> |Split(s)[k]| <= |s| && s[|s| - |Split(s)[k]|..] == Split(s)[k]
    ensures !Clean(s) ==> |Split(s)[k]| < |s|
    decreases |s|
  {
    var p := Split(s)[k];
    if s == "" {
      assert At(p, s, 0);
    } else {
      var t, c := s[..|s|-1], s[|s|-1];
      var before := Split(t);
      assert s == t + [c];
      assert Clean(s) <==> Clean(t) && !Breaks(c);
      if k == |Split(s)| - 1 {
        PiecesAreParts(t, |before| - 1);
        LastPiece(t, c, before[|before|-1]);
      } else {
        PiecesAreParts(t, k);
        PartOfLonger(p, t, c);
      }
    }
  }

  lemma PartOfLonger(p: string, t: string, c: char)
    requires Part(p, t)
    ensures Part(p, t + [c]) && |p| <= |t|
  {
    var i :| At(p, t, i);
    assert At(p, t + [c], i);
  }

  lemma LastPiece(t: string, c: char, p: string)
    requires |p| <= |t| && t[|t| - |p|..] == p
    ensures var s, q := t + [c], if Breaks(c) then "" else p + [c];
      |q| <= |s| && s[|s| - |q|..] == q && Part(q, s)
  {
    var s, q := t + [c], if Breaks(c) then "" else p + [c];
    assert At(q, s, |s| - |q|);
  }

  lemma {:induction false} NoLines(c: Codec, pieces: seq<string>)
    requires forall p | p in pieces :: c.decode(p) == None
    ensures Latest(c, pieces) == map[]
    decreases |pieces|
  {
    if pieces != [] {
      assert pieces[|pieces|-1] in pieces && forall p | p in pieces[..|pieces|-1] :: p in pieces;
      NoLines(c, pieces[..|pieces|-1]);
    }
  }

  lemma NothingDecodes(c: Codec)
    requires Lawful(c)
    ensures c.decode("") == None
  {
    var l := Line("", false, 0, "");
    assert At("", c.encode(l), 0);
  }

  /** Of one line, all or nothing is read. */
  lemma ReadLine(c: Codec, l: Line)
    requires Lawful(c)
    ensures Latest(c, Split(c.encode(l))) == if Clean(c.encode(l)) then map[l.key := l] else map[]
  {
    var s := c.encode(l);
    if Clean(s) {
      SplitClean(s);
      assert [s][..0] == [];
    } else {
      forall p | p in Split(s) ensures c.decode(p) == None {
        var k :| 0 <= k < |Split(s)| && Split(s)[k] == p;
        PiecesAreParts(s, k);
      }
      NoLines(c, Split(s));
    }
  }

  function Kept(c: Codec, lines: seq<Line>): map<Key, Line> {
    if lines == [] then map[]
    else
      var l, found := lines[|lines|-1], Kept(c, lines[..|lines|-1]);
      if Clean(c.encode(l)) then found[l.key := l] else found
  }

  /** Reading keeps, of every key, the last line that holds no break of any kind.
      A line whose answer holds one of the Unicode line separators, which the
      encoder does not escape, is lost. */
  lemma {:induction false} ReadKeepsCleanLines(c: Codec, lines: seq<Line>)
    requires Lawful(c)
    ensures Read(c, Log(c, lines)) == Kept(c, lines)
    decreases |lines|
  {
    NothingDecodes(c);
    if lines == [] {
      assert Split("") == [""] && [""][..0] == [];
      assert Latest(c, [""]) == Latest(c, []);
    } else {
      var before, l := lines[..|lines|-1], lines[|lines|-1];
      ReadKeepsCleanLines(c, before);
      ReadAppend(c, Log(c, before), l) by { LogEnds(c, before); }
    }
  }

  predicate Ended(text: string) {
    text == "" || text[|text|-1] == '\n'
  }

  lemma LogEnds(c: Codec, lines: seq<Line>)
    ensures Ended(Log(c, lines))
  {
  }

  /** A text that ends with a newline is read as its lines, */
  lemma ReadMore(c: Codec, text: string, more: string)
    requires Lawful(c) && Ended(text)
    ensures Read(c, text + more) == Read(c, text) + Read(c, more)
  {
    NothingDecodes(c);
    assert [""][..0] == [] && Latest(c, [""]) == map[];
    if text == "" {
      assert text + more == more;
    } else {
      var t := text[..|text|-1];
      assert text == t + ['\n'] + "" && text + more == t + ['\n'] + more;
      SplitJoin(t, "");
      SplitJoin(t, more);
      LatestJoin(c, Split(t), [""]);
      LatestJoin(c, Split(t), Split(more));
    }
  }

  /** and a line with its newline as that line. */
  lemma ReadOne(c: Codec, l: Line)
    requires Lawful(c)
    ensures Read(c, c.encode(l) + "\n") == if Clean(c.encode(l)) then map[l.key := l] else map[]
  {
    NothingDecodes(c);
    ReadLine(c, l);
    var s := c.encode(l);
    assert [""][..0] == [] && Latest(c, [""]) == map[];
    assert s + "\n" == s + ['\n'] + "";
    SplitJoin(s, "");
    LatestJoin(c, Split(s), [""]);
  }

  lemma ReadAppend(c: Codec, text: string, l: Line)
    requires Lawful(c) && Ended(text)
    ensures var more := text + c.encode(l) + "\n";
      Read(c, more) == (if Clean(c.encode(l)) then Read(c, text)[l.key := l] else Read(c, text)) && Ended(more)
  {
    ReadOne(c, l);
    ReadMore(c, text, c.encode(l) + "\n");
    var more := text + c.encode(l) + "\n";
    assert text + (c.encode(l) + "\n") == more && more[|more|-1] == '\n';
    hide Read, Clean;
  }

  // ----------------------------------------------------------- cut by a crash

  /** Bytes of a character in UTF-8. */
  function Width(c: char): nat {
    if c as int < 0x80 then 1 else if c as int < 0x800 then 2 else if c as int < 0x10000 then 3 else 4
  }

  function Bytes(s: string): nat {
    if s == "" then 0 else Bytes(s[..|s|-1]) + Width(s[|s|-1])
  }

  /** What is left of a file: whole characters, and perhaps part of one more. */
  datatype File = File(text: string, torn: bool)

  function Cut(s: string, bytes: nat): File {
    if Bytes(s) <= bytes then File(s, false)
    else if Bytes(s[..|s|-1]) < bytes then File(s[..|s|-1], true)
    else Cut(s[..|s|-1], bytes)
  }

  lemma {:induction false} CutIsPrefix(s: string, bytes: nat)
    ensures Cut(s, bytes).text <= s
    decreases |s|
  {
    if Bytes(s) > bytes && Bytes(s[..|s|-1]) >= bytes { CutIsPrefix(s[..|s|-1], bytes); }
  }

  ghost predicate Boundary(s: string, bytes: nat) {
    bytes >= Bytes(s) || exists k :: 0 <= k <= |s| && Bytes(s[..k]) == bytes
  }

  lemma {:induction false} BytesGrow(s: string, k: nat)
    requires k <= |s|
    ensures Bytes(s[..k]) <= Bytes(s)
    decreases |s|
  {
    if k == |s| {
      assert s[..k] == s;
    } else {
      BytesGrow(s[..|s|-1], k);
      assert s[..|s|-1][..k] == s[..k];
    }
  }

  /** A resume cannot even read the file when the crash cut inside a character,
      and only then. */
  lemma {:induction false} TornIff(s: string, bytes: nat)
    ensures Cut(s, bytes).torn <==> !Boundary(s, bytes)
    decreases |s|
  {
    if Bytes(s) > bytes {
      var t := s[..|s|-1];
      if Bytes(t) < bytes {
        forall k | 0 <= k <= |s| ensures Bytes(s[..k]) != bytes {
          if k < |s| { BytesGrow(t, k); assert t[..k] == s[..k]; } else { assert s[..k] == s; }
        }
      } else {
        TornIff(t, bytes);
        if Boundary(t, bytes) {
          if bytes >= Bytes(t) {
            assert Bytes(s[..|s|-1]) == bytes;
          } else {
            var k :| 0 <= k <= |t| && Bytes(t[..k]) == bytes;
            assert t[..k] == s[..k];
          }
        } else {
          forall k | 0 <= k <= |s| ensures Bytes(s[..k]) != bytes {
            if k < |s| { assert t[..k] == s[..k]; } else { assert s[..k] == s; }
          }
        }
      }
    }
  }

  /** read_text: None stands for the decoding error. */
  function ReadFile(c: Codec, f: File): Option<map<Key, Line>> {
    if f.torn then None else Some(Read(c, f.text))
  }

  // ---- what is read of a log that was cut

  lemma PrefixIsPart(p: string, q: string, s: string)
    requires p <= q && Part(q, s)
    ensures Part(p, s)
  {
    var i: nat :| At(q, s, i);
    assert q[..|p|] == p;
    assert s[i..i + |q|][..|p|] == s[i..i + |p|];
    assert At(p, s, i);
  }

  /** Of a line cut short nothing is read. */
  lemma ReadBeginning(c: Codec, l: Line, p: string)
    requires Lawful(c) && p < c.encode(l)
    ensures Read(c, p) == map[]
  {
    var s := c.encode(l);
    assert At(p, s, 0);
    forall q | q in Split(p) ensures c.decode(q) == None {
      var k :| 0 <= k < |Split(p)| && Split(p)[k] == q;
      PiecesAreParts(p, k);
      PartIsShort(q, p);
      PartOfPrefix(q, p, s);
    }
    NoLines(c, Split(p));
  }

  lemma PartIsShort(q: string, p: string)
    requires Part(q, p)
    ensures |q| <= |p|
  {
  }

  lemma PartOfPrefix(q: string, p: string, s: string)
    requires Part(q, p) && p <= s
    ensures Part(q, s)
  {
    var i: nat :| At(q, p, i);
    assert s[i..i + |q|] == s[..|p|][i..i + |q|];
    assert At(q, s, i);
  }

  /** A torn last line is ignored, and the complete ones before it are read. */
  lemma TornLineIsIgnored(c: Codec, lines: seq<Line>, l: Line, p: string)
    requires Lawful(c) && p < c.encode(l)
    ensures Read(c, Log(c, lines) + p) == Kept(c, lines)
  {
    LogEnds(c, lines);
    ReadMore(c, Log(c, lines), p);
    ReadBeginning(c, l, p);
    ReadKeepsCleanLines(c, lines);
  }

  /** The lines complete in the first `n` characters of their log; the last may
      lack its newline. */
  function Complete(c: Codec, lines: seq<Line>, n: nat): seq<Line> {
    if lines == [] || |Log(c, lines)| <= n + 1 then lines else Complete(c, lines[..|lines|-1], n)
  }

  /** Wherever a log is cut, the last complete line of every key is read. */
  lemma {:induction false} CutReads(c: Codec, lines: seq<Line>, n: nat)
    requires Lawful(c) && n <= |Log(c, lines)|
    ensures Read(c, Log(c, lines)[..n]) == Kept(c, Complete(c, lines, n))
    decreases |lines|
  {
    var log := Log(c, lines);
    if n == |log| {
      assert log[..n] == log;
      ReadKeepsCleanLines(c, lines);
    } else {
      var before, l := lines[..|lines|-1], lines[|lines|-1];
      var head, s := Log(c, before), c.encode(l);
      assert log == head + s + "\n" && lines == before + [l];
      if n <= |head| {
        assert log[..n] == head[..n];
        CutReads(c, before, n);
        if n + 1 >= |log| { NotEmpty(c, l); }
      } else {
        assert log[..n] == head + s[..n - |head|];
        if n == |head| + |s| {
          assert s[..|s|] == s;
          LineAtTheEnd(c, before, l);
        } else {
          TornLineIsIgnored(c, before, l, s[..n - |head|]);
        }
      }
    }
  }

  lemma NotEmpty(c: Codec, l: Line)
    requires Lawful(c)
    ensures |c.encode(l)| > 0
  {
  }

  /** A line that lost only its newline is read like any other. */
  lemma LineAtTheEnd(c: Codec, lines: seq<Line>, l: Line)
    requires Lawful(c)
    ensures Read(c, Log(c, lines) + c.encode(l)) == Kept(c, lines + [l])
  {
    LogEnds(c, lines);
    hide Ended, Log, Clean, Split, Lawful;
    ReadMore(c, Log(c, lines), c.encode(l));
    ReadLine(c, l);
    ReadKeepsCleanLines(c, lines);
    assert (lines + [l])[..|lines|] == lines;
    hide Latest;
  }

  /** Whatever is left of a log after a crash, if it can be read at all then the
      last complete line of every key is read, of lines without line separators. */
  lemma CrashedLogReads(c: Codec, lines: seq<Line>, bytes: nat)
    requires Lawful(c)
    ensures var f := Cut(Log(c, lines), bytes);
      ReadFile(c, f) == if f.torn then None else Some(Kept(c, Complete(c, lines, |f.text|)))
  {
    var log, f := Log(c, lines), Cut(Log(c, lines), bytes);
    CutIsPrefix(log, bytes);
    assert log[..|f.text|] == f.text;
    CutReads(c, lines, |f.text|);
  }

  /** And so is what a later invocation appended to any file, over what was in it. */
  lemma AppendedReads(c: Codec, text: string, lines: seq<Line>, n: nat)
    requires Lawful(c) && n <= |Log(c, lines)|
    ensures Read(c, Terminated(text) + Log(c, lines)[..n]) == Read(c, text) + Kept(c, Complete(c, lines, n))
  {
    ReadTerminated(c, text);
    ReadMore(c, Terminated(text), Log(c, lines)[..n]);
    CutReads(c, lines, n);
    hide Read, Terminated, Lawful;
  }

  // ----------------------------------------------------------- taken up again

  /** _open_sink */
  function Terminated(text: string): string {
    if text == "" || text[|text|-1] == '\n' then text else text + "\n"
  }

  predicate Answered(lines: map<Key, Line>, k: Key) {
    k in lines && lines[k].answered
  }

  /** The keys a pass over the plan asks. */
  function Asked(plan: seq<Key>, lines: map<Key, Line>, answer: Key -> Line): seq<Key> {
    if plan == [] then []
    else
      var before, k := Asked(plan[..|plan|-1], lines, answer), plan[|plan|-1];
      if Answered(Added(lines, before, answer), k) then before else before + [k]
  }

  function Added(lines: map<Key, Line>, keys: seq<Key>, answer: Key -> Line): map<Key, Line> {
    if keys == [] then lines
    else Added(lines, keys[..|keys|-1], answer)[keys[|keys|-1] := answer(keys[|keys|-1])]
  }

  function Answers(keys: seq<Key>, answer: Key -> Line): (lines: seq<Line>)
    ensures |lines| == |keys|
  {
    if keys == [] then [] else Answers(keys[..|keys|-1], answer) + [answer(keys[|keys|-1])]
  }

  /** Every answer is under its own key. */
  ghost predicate Faithful(plan: seq<Key>, answer: Key -> Line) {
    forall k | k in plan :: answer(k).key == k
  }

  /** The line of this answer holds no break of any kind. */
  predicate Legible(c: Codec, answer: Key -> Line, k: Key) {
    Clean(c.encode(answer(k)))
  }

  /** One invocation: it gets as far as `asked` new answers, and of the file
      `bytes` bytes survive. */
  datatype Session = Session(asked: nat, bytes: nat)

  function Upto<T>(s: seq<T>, n: nat): seq<T> {
    if n < |s| then s[..n] else s
  }

  function Written(c: Codec, plan: seq<Key>, answer: Key -> Line, text: string, n: nat): string {
    Terminated(text) + Log(c, Answers(Upto(Asked(plan, Read(c, text), answer), n), answer))
  }

  /** The file after these invocations, unless a crash left it unreadable. */
  function Left(c: Codec, plan: seq<Key>, answer: Key -> Line, sessions: seq<Session>): Option<string>
    decreases |sessions|
  {
    if sessions == [] then Some("")
    else
      match Left(c, plan, answer, sessions[..|sessions|-1])
      case None => None
      case Some(text) =>
        var last := sessions[|sessions|-1];
        var f := Cut(Written(c, plan, answer, text, last.asked), last.bytes);
        if f.torn then None else Some(f.text)
  }

  // ---- what such a file holds

  /** A piece without breaks of the line of some answer. */
  ghost predicate Fragment(c: Codec, plan: seq<Key>, answer: Key -> Line, p: string) {
    Clean(p) && (p == "" || exists k | k in plan :: Part(p, c.encode(answer(k))))
  }

  /** Every piece of the text is a piece of some answer's line. */
  ghost predicate Fragments(c: Codec, plan: seq<Key>, answer: Key -> Line, text: string) {
    forall p | p in Split(text) :: Fragment(c, plan, answer, p)
  }

  lemma ShorterFragment(c: Codec, plan: seq<Key>, answer: Key -> Line, p: string, q: string)
    requires Fragment(c, plan, answer, q) && p <= q
    ensures Fragment(c, plan, answer, p)
  {
    assert Clean(p) by { assert forall x | x in p :: x in q; }
    if p != "" {
      var k :| k in plan && Part(q, c.encode(answer(k)));
      PrefixIsPart(p, q, c.encode(answer(k)));
    }
  }

  lemma {:induction false} PiecesAreClean(s: string)
    ensures forall p | p in Split(s) :: Clean(p)
    decreases |s|
  {
    if s != "" {
      var t, c := s[..|s|-1], s[|s|-1];
      PiecesAreClean(t);
      var before := Split(t);
      assert before[|before|-1] in before && forall p | p in before[..|before|-1] :: p in before;
      forall p | p in Split(s) ensures Clean(p) {
        if p !in before && p != "" {
          var last := before[|before|-1];
          assert p == last + [c];
          assert forall x | x in p :: x in last || x == c;
        }
      }
    }
  }

  lemma OneLessFragments(c: Codec, plan: seq<Key>, answer: Key -> Line, t: string, x: char)
    requires Fragments(c, plan, answer, t + [x])
    ensures Fragments(c, plan, answer, t)
  {
    SplitStep(t, x);
    hide Split, Fragment;
    var before, after := Split(t), Split(t + [x]);
    forall p | p in before ensures Fragment(c, plan, answer, p) {
      var k :| 0 <= k < |before| && before[k] == p;
      assert after[k] in after && p <= after[k];
      ShorterFragment(c, plan, answer, p, after[k]);
    }
  }

  lemma {:induction false} PrefixFragments(c: Codec, plan: seq<Key>, answer: Key -> Line, text: string, n: nat)
    requires Fragments(c, plan, answer, text) && n <= |text|
    ensures Fragments(c, plan, answer, text[..n])
    decreases |text|
  {
    hide Fragments;
    if n == |text| {
      assert text[..n] == text;
    } else {
      var t, x := text[..|text|-1], text[|text|-1];
      assert t + [x] == text && t[..n] == text[..n];
      OneLessFragments(c, plan, answer, t, x);
      PrefixFragments(c, plan, answer, t, n);
    }
  }

  lemma JoinFragments(c: Codec, plan: seq<Key>, answer: Key -> Line, a: string, b: string)
    requires Fragments(c, plan, answer, a) && Fragments(c, plan, answer, b)
    ensures Fragments(c, plan, answer, a + ['\n'] + b)
  {
    SplitJoin(a, b);
  }

  lemma TerminatedFragments(c: Codec, plan: seq<Key>, answer: Key -> Line, text: string)
    requires Fragments(c, plan, answer, text)
    ensures Fragments(c, plan, answer, Terminated(text)) && Ended(Terminated(text))
  {
    if Terminated(text) != text {
      JoinFragments(c, plan, answer, text, "");
      assert text + "\n" == text + ['\n'] + "";
    }
  }

  lemma AnswerFragments(c: Codec, plan: seq<Key>, answer: Key -> Line, k: Key)
    requires Faithful(plan, answer) && k in plan
    ensures Fragments(c, plan, answer, c.encode(answer(k)))
  {
    var s := c.encode(answer(k));
    PiecesAreClean(s);
    forall p | p in Split(s) ensures Fragment(c, plan, answer, p) {
      var i :| 0 <= i < |Split(s)| && Split(s)[i] == p;
      PiecesAreParts(s, i);
    }
  }

  lemma Assoc(a: string, b: string, s: string)
    ensures a + (b + s + "\n") == a + b + s + "\n"
  {
  }

  lemma {:induction false} WrittenFragments(c: Codec, plan: seq<Key>, answer: Key -> Line, text: string, keys: seq<Key>)
    requires Fragments(c, plan, answer, text) && Ended(text) && Faithful(plan, answer)
    requires forall k | k in keys :: k in plan
    ensures Fragments(c, plan, answer, text + Log(c, Answers(keys, answer)))
    ensures Ended(text + Log(c, Answers(keys, answer)))
    decreases |keys|
  {
    if keys == [] {
      assert text + "" == text;
    } else {
      var before, k := keys[..|keys|-1], keys[|keys|-1];
      assert k in keys && forall x | x in before :: x in keys;
      hide Fragments, Faithful, Ended, Log, Answers;
      WrittenFragments(c, plan, answer, text, before);
      AnswerFragments(c, plan, answer, k);
      LineFragments(c, plan, answer, text + Log(c, Answers(before, answer)), c.encode(answer(k)));
      LogOneMore(c, before, k, answer);
      assert before + [k] == keys;
      Assoc(text, Log(c, Answers(before, answer)), c.encode(answer(k)));
    }
  }

  lemma LogOneMore(c: Codec, keys: seq<Key>, k: Key, answer: Key -> Line)
    ensures Answers(keys + [k], answer) == Answers(keys, answer) + [answer(k)]
    ensures Log(c, Answers(keys + [k], answer)) == Log(c, Answers(keys, answer)) + c.encode(answer(k)) + "\n"
  {
    assert (keys + [k])[..|keys|] == keys;
    var lines := Answers(keys, answer);
    assert (lines + [answer(k)])[..|lines|] == lines;
  }

  lemma LineFragments(c: Codec, plan: seq<Key>, answer: Key -> Line, text: string, s: string)
    requires Fragments(c, plan, answer, text) && Ended(text) && Fragments(c, plan, answer, s)
    ensures Fragments(c, plan, answer, text + s + "\n") && Ended(text + s + "\n")
  {
    var more := text + s + "\n";
    assert more[|more|-1] == '\n';
    JoinFragments(c, plan, answer, s, "");
    if text == "" {
      assert more == s + ['\n'] + "";
    } else {
      var t := text[..|text|-1];
      assert text == t + ['\n'] + "" && more == t + ['\n'] + (s + ['\n'] + "");
      PrefixFragments(c, plan, answer, text, |t|);
      JoinFragments(c, plan, answer, t, s + ['\n'] + "");
    }
  }

  /** What is read from fragments are answers of planned keys. */
  lemma {:induction false} FragmentsAreAnswers(c: Codec, plan: seq<Key>, answer: Key -> Line, pieces: seq<string>)
    requires Lawful(c) && Faithful(plan, answer) && forall p | p in pieces :: Fragment(c, plan, answer, p)
    ensures forall k | k in Latest(c, pieces) :: k in plan && Latest(c, pieces)[k] == answer(k) && Legible(c, answer, k)
    decreases |pieces|
  {
    if pieces != [] {
      var before, p := pieces[..|pieces|-1], pieces[|pieces|-1];
      assert p in pieces && forall x | x in before :: x in pieces;
      FragmentsAreAnswers(c, plan, answer, before);
      if p == "" {
        NothingDecodes(c);
      } else {
        var k :| k in plan && Part(p, c.encode(answer(k)));
        if p == c.encode(answer(k)) { assert c.decode(p) == Some(answer(k)); }
      }
    }
  }

  lemma {:induction false} AskedArePlanned(plan: seq<Key>, lines: map<Key, Line>, answer: Key -> Line)
    ensures forall k | k in Asked(plan, lines, answer) :: k in plan
    decreases |plan|
  {
    if plan != [] {
      AskedArePlanned(plan[..|plan|-1], lines, answer);
      assert plan[|plan|-1] in plan && forall x | x in plan[..|plan|-1] :: x in plan;
    }
  }

  lemma SessionFragments(c: Codec, plan: seq<Key>, answer: Key -> Line, text: string, last: Session)
    requires Faithful(plan, answer) && Fragments(c, plan, answer, text)
    ensures Fragments(c, plan, answer, Cut(Written(c, plan, answer, text, last.asked), last.bytes).text)
  {
    var all := Asked(plan, Read(c, text), answer);
    AskedArePlanned(plan, Read(c, text), answer);
    hide Fragments, Faithful, Asked, Read, Cut, Ended;
    var keys := Upto(all, last.asked);
    assert forall k | k in keys :: k in all;
    TerminatedFragments(c, plan, answer, text);
    WrittenFragments(c, plan, answer, Terminated(text), keys);
    var written := Written(c, plan, answer, text, last.asked);
    CutIsPrefix(written, last.bytes);
    var left := Cut(written, last.bytes).text;
    hide Written, Upto;
    PrefixFragments(c, plan, answer, written, |left|);
    assert written[..|left|] == left;
  }

  lemma {:induction false} LeftFragments(c: Codec, plan: seq<Key>, answer: Key -> Line, sessions: seq<Session>)
    requires Faithful(plan, answer) && Left(c, plan, answer, sessions).Some?
    ensures Fragments(c, plan, answer, Left(c, plan, answer, sessions).value)
    decreases |sessions|
  {
    if sessions != [] {
      var before, last := sessions[..|sessions|-1], sessions[|sessions|-1];
      LeftFragments(c, plan, answer, before);
      hide Fragments, Faithful;
      SessionFragments(c, plan, answer, Left(c, plan, answer, before).value, last);
    } else {
      assert Fragment(c, plan, answer, "");
    }
  }

  lemma ReadTerminated(c: Codec, text: string)
    requires Lawful(c)
    ensures Read(c, Terminated(text)) == Read(c, text) && Ended(Terminated(text))
  {
    if Terminated(text) != text {
      NothingDecodes(c);
      assert text + "\n" == text + ['\n'] + "" && [""][..0] == [];
      SplitJoin(text, "");
      LatestJoin(c, Split(text), [""]);
    }
  }

  lemma AddedMore(lines: map<Key, Line>, keys: seq<Key>, k: Key, answer: Key -> Line)
    ensures Added(lines, keys + [k], answer) == Added(lines, keys, answer)[k := answer(k)]
  {
    assert (keys + [k])[..|keys|] == keys;
  }

  /** Those keys whose answers are read back. */
  function Legibles(c: Codec, keys: seq<Key>, answer: Key -> Line): (legible: seq<Key>)
    ensures forall k :: k in legible <==> k in keys && Legible(c, answer, k)
  {
    if keys == [] then []
    else
      var before, k := Legibles(c, keys[..|keys|-1], answer), keys[|keys|-1];
      assert forall x :: x in keys <==> x in keys[..|keys|-1] || x == k;
      if Legible(c, answer, k) then before + [k] else before
  }

  lemma LegiblesMore(c: Codec, keys: seq<Key>, k: Key, answer: Key -> Line)
    ensures Legibles(c, keys + [k], answer) == Legibles(c, keys, answer) + if Legible(c, answer, k) then [k] else []
  {
    assert (keys + [k])[..|keys|] == keys;
  }

  predicate Reads(c: Codec, text: string, keys: seq<Key>, answer: Key -> Line) {
    var more := text + Log(c, Answers(keys, answer));
    Ended(more) && Read(c, more) == Added(Read(c, text), Legibles(c, keys, answer), answer)
  }

  lemma ReadsMore(c: Codec, text: string, keys: seq<Key>, k: Key, answer: Key -> Line)
    requires Lawful(c) && Reads(c, text, keys, answer) && answer(k).key == k
    ensures Reads(c, text, keys + [k], answer)
  {
    hide Lawful, Clean, Read, Log, Answers, Ended, Added, Legibles;
    ReadAppend(c, text + Log(c, Answers(keys, answer)), answer(k));
    LegiblesMore(c, keys, k, answer);
    var legible := Legibles(c, keys, answer);
    assert legible + [] == legible;
    AddedMore(Read(c, text), legible, k, answer);
    AppendedIs(c, text, keys, k, answer);
  }

  lemma ReadsNone(c: Codec, text: string, answer: Key -> Line)
    requires Ended(text)
    ensures Reads(c, text, [], answer)
  {
    assert text + "" == text;
    hide Read, Ended;
  }

  lemma {:induction false} ReadAdded(c: Codec, plan: seq<Key>, answer: Key -> Line, text: string, keys: seq<Key>)
    requires Lawful(c) && Faithful(plan, answer) && Ended(text) && forall k | k in keys :: k in plan
    ensures Reads(c, text, keys, answer)
    decreases |keys|
  {
    hide Reads, Lawful, Ended;
    if keys == [] {
      ReadsNone(c, text, answer);
    } else {
      var before, k := keys[..|keys|-1], keys[|keys|-1];
      assert k in keys && forall x | x in before :: x in keys;
      ReadAdded(c, plan, answer, text, before);
      ReadsMore(c, text, before, k, answer);
      assert before + [k] == keys;
    }
  }

  lemma AppendedIs(c: Codec, text: string, keys: seq<Key>, k: Key, answer: Key -> Line)
    ensures text + Log(c, Answers(keys + [k], answer)) == text + Log(c, Answers(keys, answer)) + c.encode(answer(k)) + "\n"
  {
    LogOneMore(c, keys, k, answer);
    hide Log, Answers;
    Assoc(text, Log(c, Answers(keys, answer)), c.encode(answer(k)));
  }

  /** After a whole pass every planned key has a line: one kept or one new. */
  lemma PassCovers(plan: seq<Key>, lines: map<Key, Line>, answer: Key -> Line)
    requires forall k | k in lines :: lines[k] == answer(k)
    ensures var found := Added(lines, Asked(plan, lines, answer), answer);
      && (forall k :: k in found <==> k in lines || k in Asked(plan, lines, answer))
      && (forall k | k in found :: found[k] == answer(k))
      && (forall k | k in plan :: k in found)
  {
    hide Asked, Added, Answered;
    var keys := Asked(plan, lines, answer);
    AddedAre(lines, keys, answer);
    forall k | k in plan ensures k in lines || k in keys {
      AskedIffOpen(plan, lines, answer, k);
      if Answered(lines, k) { AnsweredIsThere(lines, k); }
    }
  }

  lemma AnsweredIsThere(lines: map<Key, Line>, k: Key)
    requires Answered(lines, k)
    ensures k in lines
  {
  }

  lemma {:induction false} AskedIsShort(plan: seq<Key>, lines: map<Key, Line>, answer: Key -> Line)
    ensures |Asked(plan, lines, answer)| <= |plan|
    decreases |plan|
  {
    if plan != [] { AskedIsShort(plan[..|plan|-1], lines, answer); }
  }

  lemma {:induction false} AddedAre(lines: map<Key, Line>, keys: seq<Key>, answer: Key -> Line)
    ensures var found := Added(lines, keys, answer);
      && (forall k :: k in found <==> k in lines || k in keys)
      && (forall k | k in keys :: found[k] == answer(k))
      && (forall k | k in lines && k !in keys :: found[k] == lines[k])
    decreases |keys|
  {
    if keys != [] {
      AddedAre(lines, keys[..|keys|-1], answer);
      assert forall x :: x in keys <==> x in keys[..|keys|-1] || x == keys[|keys|-1];
    }
  }

  /** What a whole pass over the plan leaves to be read: the legible answers. */
  function Readable(c: Codec, plan: seq<Key>, answer: Key -> Line): map<Key, Line> {
    map k | k in plan && Legible(c, answer, k) :: answer(k)
  }

  lemma PassReads(c: Codec, plan: seq<Key>, answer: Key -> Line, lines: map<Key, Line>, keys: seq<Key>)
    requires forall k | k in lines :: k in plan && lines[k] == answer(k) && Legible(c, answer, k)
    requires forall k | k in plan :: k in lines || k in keys
    requires forall k | k in keys :: k in plan
    ensures Added(lines, Legibles(c, keys, answer), answer) == Readable(c, plan, answer)
  {
    AddedAre(lines, Legibles(c, keys, answer), answer);
    hide Added, Legible;
  }

  lemma PassEnds(c: Codec, plan: seq<Key>, answer: Key -> Line, text: string)
    requires Lawful(c) && Faithful(plan, answer) && Fragments(c, plan, answer, text)
    ensures Read(c, Written(c, plan, answer, text, |plan|)) == Readable(c, plan, answer)
    ensures forall k | k in plan && !Legible(c, answer, k) :: k in Asked(plan, Read(c, text), answer)
  {
    var lines, keys := Read(c, text), Asked(plan, Read(c, text), answer);
    assert forall k | k in lines :: k in plan && lines[k] == answer(k) && Legible(c, answer, k) by {
      FragmentsAreAnswers(c, plan, answer, Split(text));
    }
    hide Fragments, Lawful, Legible, Readable, Read, Asked, Added, Log, Answers, Legibles, Terminated;
    AskedArePlanned(plan, lines, answer);
    AskedIsShort(plan, lines, answer);
    ReadTerminated(c, text);
    ReadAdded(c, plan, answer, Terminated(text), keys);
    PassCovers(plan, lines, answer);
    PassReads(c, plan, answer, lines, keys);
    assert Upto(keys, |plan|) == keys;
  }

  lemma WholeIffLegible(c: Codec, plan: seq<Key>, answer: Key -> Line)
    ensures Readable(c, plan, answer) == (map k | k in plan :: answer(k)) <==> forall k | k in plan :: Legible(c, answer, k)
  {
    var read, all := Readable(c, plan, answer), map k | k in plan :: answer(k);
    forall k ensures k in read <==> k in all && Legible(c, answer, k) {
    }
    hide Legible, Readable;
    if read == all {
      forall k | k in plan ensures Legible(c, answer, k) { assert k in all; }
    }
  }

  /** However often the run crashed and was taken up again, as long as each crash
      cut the file between characters and the driver answers the same, a pass to
      the end leaves what one uninterrupted run leaves: the answers whose lines
      hold no line separator. That is all of them exactly when none holds one; the
      others are asked again by every invocation. */
  lemma ResumesToTheSame(c: Codec, plan: seq<Key>, answer: Key -> Line, sessions: seq<Session>)
    requires Lawful(c) && Faithful(plan, answer) && Left(c, plan, answer, sessions).Some?
    ensures var text := Left(c, plan, answer, sessions).value;
      && Read(c, Written(c, plan, answer, text, |plan|)) == Readable(c, plan, answer)
      && (forall k | k in plan && !Legible(c, answer, k) :: k in Asked(plan, Read(c, text), answer))
    ensures Read(c, Written(c, plan, answer, "", |plan|)) == Readable(c, plan, answer)
    ensures Readable(c, plan, answer) == (map k | k in plan :: answer(k)) <==> forall k | k in plan :: Legible(c, answer, k)
  {
    LeftFragments(c, plan, answer, sessions);
    PassEnds(c, plan, answer, Left(c, plan, answer, sessions).value);
    assert Split("") == [""] && Fragment(c, plan, answer, "");
    PassEnds(c, plan, answer, "");
    WholeIffLegible(c, plan, answer);
    hide Left, Readable, Legible;
  }

  /** A key that was answered is not asked again, and one in the plan twice not twice
      once it is. */
  lemma {:induction false} AnsweredIsKept(plan: seq<Key>, lines: map<Key, Line>, answer: Key -> Line, k: Key)
    requires Answered(lines, k)
    ensures k !in Asked(plan, lines, answer)
    ensures var found := Added(lines, Asked(plan, lines, answer), answer); k in found && found[k] == lines[k]
    decreases |plan|
  {
    if plan != [] {
      var before, x := Asked(plan[..|plan|-1], lines, answer), plan[|plan|-1];
      AnsweredIsKept(plan[..|plan|-1], lines, answer, k);
      assert (before + [x])[..|before|] == before;
    }
  }

  /** A pass asks just the planned keys that have no answer yet. */
  lemma {:induction false} AskedIffOpen(plan: seq<Key>, lines: map<Key, Line>, answer: Key -> Line, k: Key)
    ensures k in Asked(plan, lines, answer) <==> k in plan && !Answered(lines, k)
    decreases |plan|
  {
    AskedArePlanned(plan, lines, answer);
    if Answered(lines, k) {
      AnsweredIsKept(plan, lines, answer, k);
    } else if plan != [] {
      var t, x := plan[..|plan|-1], plan[|plan|-1];
      AskedIffOpen(t, lines, answer, k);
      assert k in plan <==> k in t || k == x;
      AddedAre(lines, Asked(t, lines, answer), answer);
    }
  }

  /** The line is one of the pieces of the text. */
  predicate Stands(c: Codec, text: string, l: Line) {
    c.encode(l) in Split(text)
  }

  /** So is any that is complete between newlines and holds no break. */
  lemma CompleteStands(c: Codec, a: string, l: Line, b: string)
    requires Ended(a) && Clean(c.encode(l)) && (b == "" || b[0] == '\n')
    ensures Stands(c, a + c.encode(l) + b, l)
  {
    var s := c.encode(l);
    SplitClean(s);
    assert s in Split(s + b) by {
      if b == "" {
        assert s + b == s;
      } else {
        assert s + b == s + ['\n'] + b[1..];
        SplitJoin(s, b[1..]);
      }
    }
    if a == "" {
      assert a + s + b == s + b;
    } else {
      assert a + s + b == a[..|a|-1] + ['\n'] + (s + b);
      SplitJoin(a[..|a|-1], s + b);
    }
  }

  /** Of fragments, a line is read exactly if it stands among them. */
  lemma {:induction false} ReadIffStands(c: Codec, plan: seq<Key>, answer: Key -> Line, pieces: seq<string>, k: Key)
    requires Lawful(c) && Faithful(plan, answer) && (forall p | p in pieces :: Fragment(c, plan, answer, p)) && k in plan
    ensures k in Latest(c, pieces) <==> c.encode(answer(k)) in pieces
    decreases |pieces|
  {
    if pieces != [] {
      var before, p := pieces[..|pieces|-1], pieces[|pieces|-1];
      assert p in pieces && forall x :: x in pieces <==> x in before || x == p;
      ReadIffStands(c, plan, answer, before, k);
      if c.decode(p).Some? { WhichDecodes(c, plan, answer, p); }
      assert c.decode(c.encode(answer(k))) == Some(answer(k));
    }
  }

  /** A piece that decodes is the whole line of some answer. */
  lemma WhichDecodes(c: Codec, plan: seq<Key>, answer: Key -> Line, p: string)
    requires Lawful(c) && Faithful(plan, answer) && Fragment(c, plan, answer, p) && c.decode(p).Some?
    ensures exists x | x in plan :: p == c.encode(answer(x)) && c.decode(p) == Some(answer(x)) && answer(x).key == x
  {
    NothingDecodes(c);
    var x :| x in plan && Part(p, c.encode(answer(x)));
    assert p == c.encode(answer(x));
  }

  /** After any crashes and resumes, an answer whose line is complete in the file, and
      holds no line separator, is read back and is not asked for again. */
  lemma SurvivorsAreKept(
      c: Codec, plan: seq<Key>, answer: Key -> Line, sessions: seq<Session>, k: Key, a: string, b: string)
    requires Lawful(c) && Faithful(plan, answer) && k in plan && Legible(c, answer, k) && answer(k).answered
    requires Left(c, plan, answer, sessions) == Some(a + c.encode(answer(k)) + b) && Ended(a) && (b == "" || b[0] == '\n')
    ensures var found := Read(c, a + c.encode(answer(k)) + b);
      k in found && found[k] == answer(k) && k !in Asked(plan, found, answer)
  {
    CompleteStands(c, a, answer(k), b);
    hide Read, Asked, Stands, Left, Lawful, Faithful;
    AskedIffLost(c, plan, answer, sessions, k);
  }

  /** After any crashes and resumes a planned key is asked again exactly if its line
      does not stand in the file, or was no answer. A line that stands is read. */
  lemma AskedIffLost(c: Codec, plan: seq<Key>, answer: Key -> Line, sessions: seq<Session>, k: Key)
    requires Lawful(c) && Faithful(plan, answer) && Left(c, plan, answer, sessions).Some? && k in plan
    ensures var text := Left(c, plan, answer, sessions).value;
      && (k in Read(c, text) <==> Stands(c, text, answer(k)))
      && (k in Read(c, text) ==> Read(c, text)[k] == answer(k))
      && (k in Asked(plan, Read(c, text), answer) <==> !(Stands(c, text, answer(k)) && answer(k).answered))
  {
    var text := Left(c, plan, answer, sessions).value;
    LeftFragments(c, plan, answer, sessions);
    ReadIffStands(c, plan, answer, Split(text), k);
    FragmentsAreAnswers(c, plan, answer, Split(text));
    hide Left, Split, Fragment, Latest, Asked, Lawful, Faithful;
    AskedIffOpen(plan, Read(c, text), answer, k);
  }

  // ---------------------------------------------------------------- the loop

  /** The keys of one repetition, and of all of them, in the order they run. */
  function OneRep(questions: seq<string>, rep: nat, name: (string, nat) -> Key): seq<Key> {
    seq(|questions|, i requires 0 <= i < |questions| => name(questions[i], rep))
  }

  function Planned(questions: seq<string>, reps: nat, name: (string, nat) -> Key): seq<Key> {
    if reps == 0 then [] else Planned(questions, reps - 1, name) + OneRep(questions, reps - 1, name)
  }

  lemma {:induction false} PlannedLength(questions: seq<string>, reps: nat, name: (string, nat) -> Key)
    ensures |Planned(questions, reps, name)| == reps * |questions|
    decreases reps
  {
    if reps > 0 {
      PlannedLength(questions, reps - 1, name);
      assert reps * |questions| == (reps - 1) * |questions| + |questions|;
    }
  }

  lemma {:induction false} PlannedAt(questions: seq<string>, reps: nat, name: (string, nat) -> Key, r: nat, i: nat)
    requires r < reps && i < |questions|
    ensures r * |questions| + i < |Planned(questions, reps, name)|
    ensures Planned(questions, reps, name)[r * |questions| + i] == name(questions[i], r)
    decreases reps
  {
    var before, row := Planned(questions, reps - 1, name), OneRep(questions, reps - 1, name);
    PlannedLength(questions, reps - 1, name);
    if r < reps - 1 {
      PlannedAt(questions, reps - 1, name, r, i);
    } else {
      assert (before + row)[|before| + i] == row[i];
    }
  }

  lemma {:induction false} PlannedHas(questions: seq<string>, reps: nat, name: (string, nat) -> Key, k: Key)
    requires k in Planned(questions, reps, name)
    ensures exists r: nat, i: nat :: r < reps && i < |questions| && k == name(questions[i], r)
    decreases reps
  {
    var row := OneRep(questions, reps - 1, name);
    if k in row {
      var i: nat :| i < |row| && row[i] == k;
      assert k == name(questions[i], reps - 1);
    } else {
      PlannedHas(questions, reps - 1, name, k);
    }
  }

  /** Every question once in every repetition, one repetition after the other: a key is
      planned exactly if it is the name of a question and of a repetition below `reps`. */
  lemma PlannedIs(questions: seq<string>, reps: nat, name: (string, nat) -> Key)
    ensures var plan, n := Planned(questions, reps, name), |questions|;
      && |plan| == reps * n
      && (forall r: nat, i: nat | r < reps && i < n :: r * n + i < |plan| && plan[r * n + i] == name(questions[i], r))
      && (forall k :: k in plan <==> exists r: nat, i: nat :: r < reps && i < n && k == name(questions[i], r))
  {
    hide Planned;
    PlannedLength(questions, reps, name);
    forall r: nat, i: nat | r < reps && i < |questions|
      ensures r * |questions| + i < |Planned(questions, reps, name)|
      ensures Planned(questions, reps, name)[r * |questions| + i] == name(questions[i], r)
    {
      PlannedAt(questions, reps, name, r, i);
    }
    forall k
      ensures k in Planned(questions, reps, name) <==> exists r: nat, i: nat :: r < reps && i < |questions| && k == name(questions[i], r)
    {
      if k in Planned(questions, reps, name) { PlannedHas(questions, reps, name, k); }
      if r: nat, i: nat :| r < reps && i < |questions| && k == name(questions[i], r) { PlannedAt(questions, reps, name, r, i); }
    }
  }

  /** What a run has spent: calls, and money at the given prices. */
  datatype Ledger = Ledger(calls: nat, paid: real)

  /** What it may spend: calls in all and of one question, money in all, and the
      estimate of the next question's price. */
  datatype Limits = Limits(perQuestion: nat, maxCalls: Option<nat>, budget: Option<real>, estimate: Key -> real)

  function Spent(start: Ledger, keys: seq<Key>, answer: Key -> Line, price: Line -> real): Ledger {
    if keys == [] then start
    else
      var l, line := Spent(start, keys[..|keys|-1], answer, price), answer(keys[|keys|-1]);
      Ledger(l.calls + line.calls, l.paid + price(line))
  }

  lemma AskedMore(plan: seq<Key>, k: Key, lines: map<Key, Line>, answer: Key -> Line)
    ensures var before := Asked(plan, lines, answer);
      Asked(plan + [k], lines, answer) == if Answered(Added(lines, before, answer), k) then before else before + [k]
  {
    assert (plan + [k])[..|plan|] == plan;
  }

  lemma {:induction false} AskedPrefix(plan: seq<Key>, more: seq<Key>, lines: map<Key, Line>, answer: Key -> Line)
    ensures Asked(plan, lines, answer) <= Asked(plan + more, lines, answer)
    decreases |more|
  {
    hide Asked, Answered, Added;
    if more == [] {
      assert plan + more == plan;
    } else {
      var t, k := more[..|more|-1], more[|more|-1];
      AskedPrefix(plan, t, lines, answer);
      AskedMore(plan + t, k, lines, answer);
      assert plan + t + [k] == plan + more;
    }
  }

  lemma SpentMore(start: Ledger, keys: seq<Key>, k: Key, answer: Key -> Line, price: Line -> real)
    ensures var l := Spent(start, keys, answer, price);
      Spent(start, keys + [k], answer, price) == Ledger(l.calls + answer(k).calls, l.paid + price(answer(k)))
  {
    assert (keys + [k])[..|keys|] == keys;
  }

  /** What a run has written, has in memory and has spent, after these keys. */
  class EvalRun {
    const codec: Codec
    const driver: Key -> Line
    const price: Line -> real
    var sink: string
    var lines: map<Key, Line>
    var ledger: Ledger
    var asked: nat

    ghost predicate Did(keys: seq<Key>, text: string, found: map<Key, Line>, start: Ledger, before: nat)
      reads this
    {
      && sink == text + Log(codec, Answers(keys, driver)) && lines == Added(found, keys, driver)
      && ledger == Spent(start, keys, driver, price) && asked == before + |keys|
    }

    /** One question: asked, written, flushed, remembered and counted. */
    method Ask(key: Key, ghost keys: seq<Key>, ghost text: string, ghost found: map<Key, Line>, ghost start: Ledger, ghost before: nat)
      requires Did(keys, text, found, start, before)
      modifies this`sink, this`lines, this`ledger, this`asked
      ensures Did(keys + [key], text, found, start, before)
      ensures ledger == Ledger(old(ledger).calls + driver(key).calls, old(ledger).paid + price(driver(key)))
    {
      var line := driver(key);
      asked := asked + 1;
      sink := sink + codec.encode(line) + "\n";
      lines := lines[key := line];
      ledger := Ledger(ledger.calls + line.calls, ledger.paid + price(line));
      AppendedIs(codec, text, keys, key, driver);
      AddedMore(found, keys, key, driver);
      SpentMore(start, keys, key, driver, price);
    }

    /** _Ledger.stop */
    method Stop(limits: Limits, key: Key) returns (reason: Option<string>)
      ensures reason.Some? <==> !Fits(limits, ledger, key)
      ensures reason.Some? ==> StoppedFor(reason.value, limits, ledger, key)
    {
      var per := if limits.perQuestion > 1 then limits.perQuestion else 1;
      if limits.maxCalls.Some? && ledger.calls + per > limits.maxCalls.value { return Some("max_calls"); }
      if limits.budget.Some? && ledger.paid + limits.estimate(key) > limits.budget.value { return Some("budget_usd"); }
      return None;
    }

    /** One invocation asks, in order, the keys of the plan that were open. It stops
        exactly before the first whose calls or price would not fit, and never spends
        more than it may, if it started within and every turn keeps to its bound. */
    method Loop(questions: seq<string>, reps: nat, name: (string, nat) -> Key, limits: Limits)
        returns (stopped: Option<string>, ghost keys: seq<Key>)
      modifies this`sink, this`lines, this`ledger, this`asked
      ensures Did(keys, old(sink), old(lines), old(ledger), old(asked))
      ensures var all := Asked(Planned(questions, reps, name), old(lines), driver);
        if stopped.None? then keys == all else keys < all && StoppedFor(stopped.value, limits, ledger, all[|keys|])
      ensures Within(driver, price, limits, old(ledger), ledger)
    {
      stopped, keys := None, [];
      assert sink + "" == sink;
      assert Did([], sink, lines, ledger, asked) && Planned(questions, 0, name) == [] && Asked([], lines, driver) == [];
      hide Asked, Added, Planned, Log, Answers, Spent, Did, Within, OneRep, StoppedFor;
      var rep := 0;
      WithinAtFirst(driver, price, limits, ledger);
      while rep < reps
        invariant rep <= reps && Did(keys, old(sink), old(lines), old(ledger), old(asked))
        invariant stopped == None && keys == Asked(Planned(questions, rep, name), old(lines), driver)
        invariant Within(driver, price, limits, old(ledger), ledger)
      {
        ghost var plan := Planned(questions, rep, name);
        PlannedStep(questions, rep, name);
        stopped, keys := Row(plan, OneRep(questions, rep, name), limits, keys, old(sink), old(lines), old(ledger), old(asked));
        if stopped.Some? {
          StopsShort(questions, rep, reps, name, old(lines), keys);
          return;
        }
        rep := rep + 1;
      }
    }

    /** What is asked before a run stops is a part of what it would have asked. */
    lemma StopsShort(
        questions: seq<string>, rep: nat, reps: nat, name: (string, nat) -> Key, found: map<Key, Line>, keys: seq<Key>)
      requires rep < reps && keys < Asked(Planned(questions, rep + 1, name), found, driver)
      ensures var some, all := Asked(Planned(questions, rep + 1, name), found, driver), Asked(Planned(questions, reps, name), found, driver);
        keys < all && all[|keys|] == some[|keys|]
    {
      hide Asked, Planned;
      var rest := Rest(questions, rep, reps, name);
      AskedPrefix(Planned(questions, rep + 1, name), rest, found, driver);
      Shorter(keys, Asked(Planned(questions, rep + 1, name), found, driver), Asked(Planned(questions, reps, name), found, driver));
    }

    /** One question of the loop: skipped if it is answered, asked unless the run stops. */
    method Turn(
        ghost plan: seq<Key>, key: Key, limits: Limits,
        ghost done: seq<Key>, ghost text: string, ghost found: map<Key, Line>, ghost start: Ledger, ghost before: nat)
        returns (stopped: Option<string>, ghost keys: seq<Key>)
      requires Did(done, text, found, start, before) && done == Asked(plan, found, driver)
      requires Within(driver, price, limits, start, ledger)
      modifies this`sink, this`lines, this`ledger, this`asked
      ensures Did(keys, text, found, start, before) && Within(driver, price, limits, start, ledger)
      ensures keys == if stopped.None? then Asked(plan + [key], found, driver) else done
      ensures stopped.Some? ==>
        keys < Asked(plan + [key], found, driver) && StoppedFor(stopped.value, limits, ledger, Asked(plan + [key], found, driver)[|keys|])
    {
      hide Asked, Added, Log, Answers, Spent, Within, Answered, Fits, StoppedFor;
      stopped, keys := None, done;
      AskedMore(plan, key, found, driver);
      if !Answered(lines, key) {
        assert done < done + [key] && (done + [key])[|done|] == key;
        stopped := Stop(limits, key);
        if stopped.Some? { return; }
        StaysWithin(driver, price, limits, start, ledger, key);
        Ask(key, keys, text, found, start, before);
        keys := keys + [key];
      }
    }

    /** The questions of one repetition. */
    method Row(
        ghost plan: seq<Key>, row: seq<Key>, limits: Limits,
        ghost done: seq<Key>, ghost text: string, ghost found: map<Key, Line>, ghost start: Ledger, ghost before: nat)
        returns (stopped: Option<string>, ghost keys: seq<Key>)
      requires Did(done, text, found, start, before) && done == Asked(plan, found, driver)
      requires Within(driver, price, limits, start, ledger)
      modifies this`sink, this`lines, this`ledger, this`asked
      ensures Did(keys, text, found, start, before) && Within(driver, price, limits, start, ledger)
      ensures if stopped.None? then keys == Asked(plan + row, found, driver) else keys < Asked(plan + row, found, driver)
      ensures stopped.Some? ==> StoppedFor(stopped.value, limits, ledger, Asked(plan + row, found, driver)[|keys|])
    {
      stopped, keys := None, done;
      AlongEnds(plan, row);
      hide Asked, Added, Log, Answers, Spent, Within, Did, Along, StoppedFor;
      var i := 0;
      while i < |row|
        invariant i <= |row| && Did(keys, text, found, start, before)
        invariant stopped == None && keys == Asked(Along(plan, row, i), found, driver)
        invariant Within(driver, price, limits, start, ledger)
      {
        StepAlong(plan, row, i);
        stopped, keys := Turn(Along(plan, row, i), row[i], limits, keys, text, found, start, before);
        if stopped.Some? {
          AskedPrefix(Along(plan, row, i + 1), row[i + 1..], found, driver);
          assert Along(plan, row, i + 1) + row[i + 1..] == plan + row by { LastAlong(plan, row, i + 1); }
          Shorter(keys, Asked(Along(plan, row, i + 1), found, driver), Asked(plan + row, found, driver));
          return;
        }
        i := i + 1;
      }
    }
  }

  /** The next question may be asked: neither its calls nor its price break a limit. */
  predicate Fits(limits: Limits, l: Ledger, key: Key) {
    && (limits.maxCalls.Some? ==> l.calls + limits.perQuestion <= limits.maxCalls.value && l.calls + 1 <= limits.maxCalls.value)
    && (limits.budget.Some? ==> l.paid + limits.estimate(key) <= limits.budget.value)
  }

  /** The reason given is one there is: the calls first. */
  predicate StoppedFor(reason: string, limits: Limits, l: Ledger, key: Key) {
    var calls := limits.maxCalls.Some?
      && (l.calls + limits.perQuestion > limits.maxCalls.value || l.calls >= limits.maxCalls.value);
    if reason == "max_calls" then calls
    else
      reason == "budget_usd" && !calls && limits.budget.Some? && l.paid + limits.estimate(key) > limits.budget.value
  }

  /** Started within a limit, and every turn within its own, the run stays within. */
  ghost predicate Within(driver: Key -> Line, price: Line -> real, limits: Limits, start: Ledger, l: Ledger) {
    && (limits.maxCalls.Some? && start.calls <= limits.maxCalls.value && (forall k :: driver(k).calls <= limits.perQuestion) ==>
          l.calls <= limits.maxCalls.value)
    && (limits.budget.Some? && start.paid <= limits.budget.value && (forall k :: price(driver(k)) <= limits.estimate(k)) ==>
          l.paid <= limits.budget.value)
  }

  lemma WithinAtFirst(driver: Key -> Line, price: Line -> real, limits: Limits, l: Ledger)
    ensures Within(driver, price, limits, l, l)
  {
  }

  lemma StaysWithin(driver: Key -> Line, price: Line -> real, limits: Limits, start: Ledger, l: Ledger, k: Key)
    requires Fits(limits, l, k)
    ensures Within(driver, price, limits, start, Ledger(l.calls + driver(k).calls, l.paid + price(driver(k))))
  {
  }

  lemma PlannedStep(questions: seq<string>, rep: nat, name: (string, nat) -> Key)
    ensures Planned(questions, rep + 1, name) == Planned(questions, rep, name) + OneRep(questions, rep, name)
  {
  }

  /** One list and the beginning of another. */
  function Along<T>(a: seq<T>, b: seq<T>, i: nat): seq<T>
    requires i <= |b|
  {
    a + b[..i]
  }

  lemma StepAlong<T>(a: seq<T>, b: seq<T>, i: nat)
    requires i < |b|
    ensures Along(a, b, i) + [b[i]] == Along(a, b, i + 1) && Along(a, b, i) + b[i..] == a + b
  {
  }

  lemma LastAlong<T>(a: seq<T>, b: seq<T>, i: nat)
    requires i <= |b|
    ensures Along(a, b, i) + b[i..] == a + b
  {
  }

  lemma Shorter<T>(a: seq<T>, b: seq<T>, c: seq<T>)
    requires a < b <= c
    ensures a < c && c[|a|] == b[|a|]
  {
    assert a == b[..|a|] == c[..|a|];
  }

  lemma AlongEnds<T>(a: seq<T>, b: seq<T>)
    ensures Along(a, b, 0) == a && Along(a, b, |b|) == a + b
  {
    assert b[..|b|] == b;
  }

  /** The keys of the later repetitions. */
  lemma Rest(questions: seq<string>, rep: nat, reps: nat, name: (string, nat) -> Key) returns (rest: seq<Key>)
    requires rep < reps
    ensures Planned(questions, reps, name) == Planned(questions, rep + 1, name) + rest
    decreases reps
  {
    if rep + 1 == reps {
      rest := [];
    } else {
      rest := Rest(questions, rep, reps - 1, name);
      rest := rest + OneRep(questions, reps - 1, name);
    }
  }
}
