/** An encoding that keeps the laws asked of JSON lines, and with it the two
    answers that a results log does not survive. */
module ResultsExamples {
  import opened Options
  import opened ResultsLog

  // ------------------------------------------------------------ an encoding

  predicate Special(c: char) {
    c == '{' || c == '}' || c == '|' || c == '\\' || c == '\n'
  }

  function Escape(c: char): string {
    if c == '{' then "\\a" else if c == '}' then "\\b" else if c == '|' then "\\c"
    else if c == '\\' then "\\d" else if c == '\n' then "\\e" else [c]
  }

  /** A text with its special characters escaped, and a bar behind it. */
  function Field(s: string): string {
    if s == "" then "|" else Escape(s[0]) + Field(s[1..])
  }

  function Unary(n: nat): string {
    seq(n, _ => '1')
  }

  function Encode(l: Line): string {
    "{" + (Field(l.key) + (Field(if l.answered then "1" else "0") + (Field(Unary(l.calls)) + (Field(l.body) + "}"))))
  }

  ghost function Decode(s: string): Option<Line> {
    if exists l :: Encode(l) == s then
      var l :| Encode(l) == s;
      Some(l)
    else None
  }

  ghost function Plain(): Codec {
    Codec((l: Line) => Encode(l), (s: string) => Decode(s))
  }

  lemma EscapeIs(c: char)
    ensures |Escape(c)| == (if Special(c) then 2 else 1) && (Escape(c)[0] == '\\' <==> Special(c)) && Escape(c)[0] != '|'
    ensures !Special(c) ==> Escape(c) == [c]
    ensures '{' !in Escape(c) && '}' !in Escape(c) && '\n' !in Escape(c)
  {
  }

  lemma EscapeOnce(a: char, b: char, x: string, y: string)
    requires Escape(a) + x == Escape(b) + y
    ensures a == b && x == y
  {
    EscapeIs(a);
    EscapeIs(b);
    assert (Escape(a) + x)[0] == (Escape(b) + y)[0];
    assert Special(a) <==> Special(b);
    assert Escape(a) == (Escape(a) + x)[..|Escape(a)|] && Escape(b) == (Escape(b) + y)[..|Escape(b)|];
    assert x == (Escape(a) + x)[|Escape(a)|..] && y == (Escape(b) + y)[|Escape(b)|..];
  }

  lemma FieldEmpty(x: string)
    ensures (Field("") + x)[1..] == x
  {
  }

  lemma FieldCons(s: string, x: string)
    requires s != ""
    ensures Field(s) + x == Escape(s[0]) + (Field(s[1..]) + x) && s == [s[0]] + s[1..]
  {
    hide Escape;
    Join(Escape(s[0]), Field(s[1..]), x);
  }

  lemma Join(a: string, b: string, c: string)
    ensures (a + b) + c == a + (b + c)
  {
  }

  lemma {:induction false} FieldOnce(a: string, b: string, x: string, y: string)
    requires Field(a) + x == Field(b) + y
    ensures a == b && x == y
    decreases |a|
  {
    hide Field, Escape;
    FieldHead(a, x);
    FieldHead(b, y);
    if a == "" {
      FieldEmpty(x);
      FieldEmpty(y);
    } else {
      FieldCons(a, x);
      FieldCons(b, y);
      EscapeOnce(a[0], b[0], Field(a[1..]) + x, Field(b[1..]) + y);
      FieldOnce(a[1..], b[1..], x, y);
    }
  }

  lemma FieldHead(s: string, x: string)
    ensures |Field(s)| > 0 && ((Field(s) + x)[0] == '|' <==> s == "")
  {
    if s != "" { EscapeIs(s[0]); }
  }

  lemma {:induction false} FieldIsBare(s: string)
    ensures '{' !in Field(s) && '}' !in Field(s) && '\n' !in Field(s)
    decreases |s|
  {
    if s != "" {
      EscapeIs(s[0]);
      FieldIsBare(s[1..]);
    }
  }

  lemma {:induction false} FieldKeeps(s: string, c: char)
    requires c in s && !Special(c)
    ensures c in Field(s)
    decreases |s|
  {
    EscapeIs(s[0]);
    if c != s[0] { FieldKeeps(s[1..], c); }
  }

  lemma EncodeOnce(l: Line, m: Line)
    requires Encode(l) == Encode(m)
    ensures l == m
  {
    assert Encode(l)[1..] == Encode(m)[1..];
    hide Field;
    var restL, restM := Field(Unary(l.calls)) + (Field(l.body) + "}"), Field(Unary(m.calls)) + (Field(m.body) + "}");
    var flagL, flagM := if l.answered then "1" else "0", if m.answered then "1" else "0";
    FieldOnce(l.key, m.key, Field(flagL) + restL, Field(flagM) + restM);
    FieldOnce(flagL, flagM, restL, restM);
    FieldOnce(Unary(l.calls), Unary(m.calls), Field(l.body) + "}", Field(m.body) + "}");
    FieldOnce(l.body, m.body, "}", "}");
    assert |Unary(l.calls)| == |Unary(m.calls)|;
  }

  /** A line starts with its only opening brace and ends with its only closing one. */
  lemma Braced(l: Line)
    ensures var s := Encode(l);
      && |s| >= 2 && '\n' !in s
      && (forall i | 0 <= i < |s| :: (s[i] == '{' <==> i == 0) && (s[i] == '}' <==> i == |s| - 1))
  {
    var inside := Field(l.key) + (Field(if l.answered then "1" else "0") + (Field(Unary(l.calls)) + Field(l.body)));
    FieldIsBare(l.key);
    FieldIsBare(if l.answered then "1" else "0");
    FieldIsBare(Unary(l.calls));
    FieldIsBare(l.body);
    hide Field;
    assert Encode(l) == "{" + inside + "}";
    assert '{' !in inside && '}' !in inside && '\n' !in inside;
  }

  lemma PartIsWhole(l: Line, m: Line)
    requires Part(Encode(m), Encode(l))
    ensures Encode(m) == Encode(l)
  {
    Braced(l);
    Braced(m);
    var s, p := Encode(l), Encode(m);
    hide Encode;
    var i: nat :| At(p, s, i);
    assert s[i] == s[i..i + |p|][0] == '{';
    assert s[i + |p| - 1] == s[i..i + |p|][|p| - 1] == '}';
  }

  lemma DecodesEncoded(l: Line)
    ensures Decode(Encode(l)) == Some(l)
  {
    forall m | Encode(m) == Encode(l) ensures m == l { EncodeOnce(m, l); }
  }

  /** There are encodings of the kind the log relies on. */
  lemma PlainIsLawful()
    ensures Lawful(Plain())
  {
    var c := Plain();
    hide Encode, Decode;
    forall l ensures c.decode(c.encode(l)) == Some(l) && '\n' !in c.encode(l) && c.encode(l) != "" {
      DecodesEncoded(l);
      Braced(l);
    }
    forall l, p | Part(p, c.encode(l)) && p != c.encode(l) ensures c.decode(p) == None {
      if c.decode(p) != None {
        var m := DecodedFrom(p);
        PartIsWhole(l, m);
      }
    }
  }

  lemma DecodedFrom(p: string) returns (m: Line)
    requires Decode(p) != None
    ensures Encode(m) == p
  {
    m :| Encode(m) == p;
  }

  // ------------------------------------------------- a line that is not read

  /** The one answer of a run, with this text in it. */
  ghost function Answering(body: string): Key -> Line {
    (k: Key) => Line(k, true, 1, body)
  }

  /** The answer `a`, a line separator, `b` is complete in the file, is not read
      back, and is asked for again. */
  lemma SeparatorLosesTheAnswer(k: Key)
    ensures var c, answer := Plain(), Answering("a\U{2028}b");
      var text := Written(c, [k], answer, "", 1);
      && text == c.encode(answer(k)) + "\n"
      && Read(c, text) == map[] && Asked([k], Read(c, text), answer) == [k]
  {
    hide Encode, Field, Plain, Read, Written, Asked, Lawful, Readable, Legible;
    var c, answer := Plain(), Answering("a\U{2028}b");
    PlainIsLawful();
    PlainEncodes(answer(k));
    Separated(c, answer, k);
    OneWritten(c, k, answer);
    assert Left(c, [k], answer, []) == Some("");
    ResumesToTheSame(c, [k], answer, []);
    AskedAlone(k, answer);
  }

  lemma Separated(c: Codec, answer: Key -> Line, k: Key)
    requires answer(k).body == "a\U{2028}b" && c.encode(answer(k)) == Encode(answer(k))
    ensures Readable(c, [k], answer) == map[]
  {
    FieldKeeps(answer(k).body, '\U{2028}');
    hide Field;
    assert '\U{2028}' in Encode(answer(k)) && Breaks('\U{2028}');
    hide Encode;
    assert !Legible(c, answer, k);
  }

  lemma PlainEncodes(l: Line)
    ensures Plain().encode(l) == Encode(l)
  {
  }

  lemma AskedAlone(k: Key, answer: Key -> Line)
    ensures Asked([k], map[], answer) == [k]
  {
    assert [k][..0] == [] && Asked([], map[], answer) == [];
  }

  lemma ReadNothing(c: Codec)
    requires Lawful(c)
    ensures Read(c, "") == map[]
  {
    NothingDecodes(c);
    assert Split("") == [""] && [""][..0] == [] && Latest(c, []) == map[];
  }

  lemma OneLogged(c: Codec, k: Key, answer: Key -> Line)
    ensures Log(c, Answers([k], answer)) == c.encode(answer(k)) + "\n"
  {
    LogOneMore(c, [], k, answer);
    assert [] + [k] == [k] && Log(c, Answers([], answer)) == "";
    hide Log, Answers;
    assert "" + c.encode(answer(k)) == c.encode(answer(k));
  }

  lemma OneWritten(c: Codec, k: Key, answer: Key -> Line)
    requires Lawful(c)
    ensures Written(c, [k], answer, "", 1) == c.encode(answer(k)) + "\n"
  {
    hide Lawful, Read, Log, Answers, Asked;
    ReadNothing(c);
    AskedAlone(k, answer);
    OneLogged(c, k, answer);
    assert Upto([k], 1) == [k];
  }

  // ------------------------------------------------ a file that is not read

  lemma BytesUpTo(s: string, j: nat, k: nat)
    requires j <= k <= |s|
    ensures Bytes(s[..j]) <= Bytes(s[..k])
  {
    BytesGrow(s[..k], j);
    assert s[..k][..j] == s[..j];
  }

  /** A crash one byte into a wide character leaves a file that cannot be read. */
  lemma WideCharacterTears(c: Codec, s: string, i: nat)
    requires i < |s| && Width(s[i]) > 1
    ensures var bytes := Bytes(s[..i]) + 1; Cut(s, bytes).torn && ReadFile(c, Cut(s, bytes)) == None
  {
    var bytes := Bytes(s[..i]) + 1;
    BytesNext(s, i);
    hide Bytes, Width, Cut;
    assert s[..|s|] == s;
    BytesUpTo(s, i + 1, |s|);
    forall k: nat | k <= |s| ensures Bytes(s[..k]) != bytes {
      if k <= i { BytesUpTo(s, k, i); } else { BytesUpTo(s, i + 1, k); }
    }
    TornIff(s, bytes);
  }

  lemma BytesNext(s: string, i: nat)
    requires i < |s|
    ensures Bytes(s[..i + 1]) == Bytes(s[..i]) + Width(s[i])
  {
    assert s[..i + 1][..i] == s[..i];
    hide Width;
  }

  lemma {:induction false} NarrowBytes(s: string)
    requires forall i | 0 <= i < |s| :: Width(s[i]) == 1
    ensures Bytes(s) == |s|
    decreases |s|
  {
    if s != "" { NarrowBytes(s[..|s|-1]); }
  }

  /** A text can be torn by a crash exactly when it holds such a character. */
  lemma TearableIffWide(s: string)
    ensures (exists bytes :: Cut(s, bytes).torn) <==> exists i | 0 <= i < |s| :: Width(s[i]) > 1
  {
    hide Cut, Bytes;
    if i: nat :| i < |s| && Width(s[i]) > 1 {
      WideCharacterTears(Plain(), s, i);
    } else {
      assert forall i | 0 <= i < |s| :: Width(s[i]) == 1;
      forall bytes: nat ensures !Cut(s, bytes).torn {
        TornIff(s, bytes);
        NarrowBytes(s);
        if bytes < |s| { NarrowBytes(s[..bytes]); }
      }
    }
  }

  /** The answer with an accented letter: a crash inside it, and no invocation
      can read the file again. */
  lemma AccentTearsTheFile(k: Key) returns (bytes: nat)
    ensures var c, answer := Plain(), Answering("\U{e9}");
      ReadFile(c, Cut(Written(c, [k], answer, "", 1), bytes)) == None && Left(c, [k], answer, [Session(1, bytes)]) == None
  {
    hide Encode, Field, Plain, Written, Left, Cut, Bytes, Lawful, ReadFile;
    var c, answer := Plain(), Answering("\U{e9}");
    PlainIsLawful();
    assert '\U{e9}' in Encode(answer(k)) by { EncodesAccent(answer(k)); }
    PlainEncodes(answer(k));
    OneWritten(c, k, answer);
    var s := Written(c, [k], answer, "", 1);
    assert '\U{e9}' in s;
    var i: nat :| i < |s| && s[i] == '\U{e9}';
    bytes := Bytes(s[..i]) + 1;
    WideCharacterTears(c, s, i);
    LeftOnce(c, k, answer, bytes);
  }

  lemma EncodesAccent(l: Line)
    requires l.body == "\U{e9}"
    ensures '\U{e9}' in Encode(l)
  {
    FieldKeeps(l.body, '\U{e9}');
    hide Field;
  }

  lemma LeftOnce(c: Codec, k: Key, answer: Key -> Line, bytes: nat)
    requires Cut(Written(c, [k], answer, "", 1), bytes).torn
    ensures Left(c, [k], answer, [Session(1, bytes)]) == None
  {
    assert [Session(1, bytes)][..0] == [];
    assert Left(c, [k], answer, []) == Some("");
    hide Cut, Written;
  }
}
