/** The command-line front end: the dimension line "WxH", the piece line
    "3t1o2i" read by a three-stage character state machine, and the
    all-or-nothing registration of a parsed piece list with the store. */
module Input {
  import opened Types
  import opened Pieces
  import opened Store

  /** Character.isWhitespace: the Unicode White_Space property. */
  predicate IsWhitespace(c: char)
  {
    || ('\t' <= c <= '\r') || c == ' ' || c == '\U{85}' || c == '\U{A0}' || c == '\U{1680}'
    || ('\U{2000}' <= c <= '\U{200A}') || c == '\U{2028}' || c == '\U{2029}' || c == '\U{202F}'
    || c == '\U{205F}' || c == '\U{3000}'
  }

  predicate IsAscii(c: char)
  {
    c < '\U{80}'
  }

  /** On ASCII characters, Character.wholeNumberValue is defined exactly on
      the digits 0 to 9. */
  predicate IsDigit(c: char)
  {
    '0' <= c <= '9'
  }

  function DigitValue(c: char): (d: int)
    requires IsDigit(c)
    ensures 0 <= d <= 9
  {
    c as int - '0' as int
  }

  function DigitChar(d: int): (c: char)
    requires 0 <= d <= 9
    ensures IsDigit(c) && DigitValue(c) == d
  {
    ('0' as int + d) as char
  }

  predicate AllDigits(s: string)
  {
    forall i :: 0 <= i < |s| ==> IsDigit(s[i])
  }

  /** The value of a run of decimal digits, most significant first. */
  function DigitsValue(s: string): (v: int)
    requires AllDigits(s)
    ensures v >= 0
  {
    if s == [] then 0 else DigitsValue(s[..|s| - 1]) * 10 + DigitValue(s[|s| - 1])
  }

  /** The decimal numeral of n, without leading zeros. */
  function Decimal(n: nat): (s: string)
    ensures |s| > 0 && AllDigits(s) && DigitsValue(s) == n
    ensures s[0] != '0' || n == 0
  {
    if n < 10 then [DigitChar(n)]
    else
      var s := Decimal(n / 10) + [DigitChar(n % 10)];
      assert s[..|s| - 1] == Decimal(n / 10);
      s
  }

  // ---------------------------------------------------------------------
  // Int(_:) and split(separator:)

  /** Int(_:) on a string: an optional '+' or '-', then at least one ASCII
      digit, and a value within the 64-bit range; anything else is nil. */
  function ParseInt(s: string): (r: Option<int>)
    ensures r.Some? ==> -IntMax - 1 <= r.value <= IntMax
  {
    var signed := s != [] && (s[0] == '+' || s[0] == '-');
    var body := if signed then s[1..] else s;
    if body == [] || !AllDigits(body) then None
    else
      var v := if signed && s[0] == '-' then -DigitsValue(body) else DigitsValue(body);
      if -IntMax - 1 <= v <= IntMax then Some(v) else None
  }

  /** Printing a number in range and reading it back gives the number. */
  lemma ParseDecimal(n: nat)
    requires n <= IntMax
    ensures ParseInt(Decimal(n)) == Some(n)
  {
    assert IsDigit(Decimal(n)[0]);
  }

  /** A sign without digits, or a stray character, is not a number. */
  lemma ParseIntRejects()
    ensures ParseInt("") == None && ParseInt("+") == None && ParseInt("-") == None
    ensures ParseInt("1 ") == None && ParseInt(" 1") == None && ParseInt("-7") == Some(-7)
  {
    assert !AllDigits("1 ") by { assert !IsDigit("1 "[1]); }
    assert !AllDigits(" 1") by { assert !IsDigit(" 1"[0]); }
    assert "-7"[1..] == "7";
  }

  /** The longest prefix of s that does not contain sep. */
  function Field(s: string, sep: char): (f: string)
    ensures |f| <= |s| && f == s[..|f|] && sep !in f
    ensures |f| < |s| ==> s[|f|] == sep
  {
    if s == [] || s[0] == sep then [] else [s[0]] + Field(s[1..], sep)
  }

  /** split(separator:) with its defaults: the maximal runs of characters
      other than sep, in order, with empty runs dropped. */
  function Split(s: string, sep: char): (parts: seq<string>)
    ensures forall k :: 0 <= k < |parts| ==> |parts[k]| > 0 && sep !in parts[k]
    decreases |s|
  {
    if s == [] then []
    else if s[0] == sep then Split(s[1..], sep)
    else
      var f := Field(s, sep);
      [f] + Split(s[|f|..], sep)
  }

  /** The parts joined with sep between them. */
  function Join(parts: seq<string>, sep: char): string
  {
    if parts == [] then []
    else if |parts| == 1 then parts[0]
    else parts[0] + [sep] + Join(parts[1..], sep)
  }

  lemma {:induction false} FieldPrefix(f: string, rest: string, sep: char)
    requires sep !in f && (rest == [] || rest[0] == sep)
    ensures Field(f + rest, sep) == f
  {
    if f != [] {
      assert (f + rest)[1..] == f[1..] + rest;
      FieldPrefix(f[1..], rest, sep);
    }
  }

  /** Splitting undoes joining non-empty parts that do not contain sep. */
  lemma {:induction false} SplitJoin(parts: seq<string>, sep: char)
    requires forall k :: 0 <= k < |parts| ==> |parts[k]| > 0 && sep !in parts[k]
    ensures Split(Join(parts, sep), sep) == parts
  {
    if parts != [] {
      var p := parts[0];
      var rest := if |parts| == 1 then [] else [sep] + Join(parts[1..], sep);
      assert Join(parts, sep) == p + rest;
      FieldPrefix(p, rest, sep);
      assert (p + rest)[|p|..] == rest;
      if |parts| > 1 {
        SplitJoin(parts[1..], sep);
        assert rest[1..] == Join(parts[1..], sep);
      }
    }
  }

  // ---------------------------------------------------------------------
  // readDimensions

  /** The dimension line: exactly two 'x'-separated parts, both integers
      greater than zero; anything else is nil. */
  function ReadDimensions(line: string): (r: Option<Size>)
    ensures r.Some? ==> 0 < r.value.width <= IntMax && 0 < r.value.height <= IntMax
  {
    var parts := Split(line, 'x');
    if |parts| != 2 then None
    else
      var w, h := ParseInt(parts[0]), ParseInt(parts[1]);
      if w.None? || h.None? then None
      else if !(w.value > 0 && h.value > 0) then None
      else Some(Size(w.value, h.value))
  }

  /** Every board size is read back from its "WxH" form. */
  lemma ReadDimensionsRoundTrip(size: Size)
    requires 0 < size.width <= IntMax && 0 < size.height <= IntMax
    ensures ReadDimensions(Decimal(size.width) + "x" + Decimal(size.height)) == Some(size)
  {
    var w, h := Decimal(size.width), Decimal(size.height);
    assert 'x' !in w && 'x' !in h;
    assert Join([w, h], 'x') == w + "x" + h by {
      assert Join([w, h][1..], 'x') == h;
    }
    SplitJoin([w, h], 'x');
    ParseDecimal(size.width);
    ParseDecimal(size.height);
  }

  /** Splitting drops empty runs, so doubled and outer separators are
      accepted. */
  lemma ReadDimensionsLenient()
    ensures ReadDimensions("x3xx4x") == Some(Size(3, 4))
  {
    assert "x"[1..] == [] && Split("x", 'x') == [];
    assert "4x"[1..] == "x" && Field("4x", 'x') == "4" && "4x"[1..] == "x";
    assert Split("4x", 'x') == ["4"];
    assert "x4x"[1..] == "4x" && Split("x4x", 'x') == ["4"];
    assert "xx4x"[1..] == "x4x" && Split("xx4x", 'x') == ["4"];
    assert "3xx4x"[1..] == "xx4x" && Field("3xx4x", 'x') == "3";
    assert Split("3xx4x", 'x') == ["3", "4"];
    assert "x3xx4x"[1..] == "3xx4x";
  }

  /** A third part is refused. */
  lemma ReadDimensionsThreeParts()
    ensures ReadDimensions("3x4x5") == None
  {
    assert "5"[1..] == [] && Field("5", 'x') == "5" && Split("5", 'x') == ["5"];
    assert "x5"[1..] == "5" && Split("x5", 'x') == ["5"];
    assert "4x5"[1..] == "x5" && Field("4x5", 'x') == "4" && Split("4x5", 'x') == ["4", "5"];
    assert "x4x5"[1..] == "4x5" && Split("x4x5", 'x') == ["4", "5"];
    assert "3x4x5"[1..] == "x4x5" && Field("3x4x5", 'x') == "3";
    assert |Split("3x4x5", 'x')| == 3;
  }

  /** A side of zero is refused. */
  lemma ReadDimensionsZeroSide()
    ensures ReadDimensions("0x4") == None
  {
    assert "4"[1..] == [] && Field("4", 'x') == "4" && Split("4", 'x') == ["4"];
    assert "x4"[1..] == "4" && Split("x4", 'x') == ["4"];
    assert "0x4"[1..] == "x4" && Field("0x4", 'x') == "0";
    assert Split("0x4", 'x') == ["0", "4"];
  }

  // ---------------------------------------------------------------------
  // readPieces

  datatype Stage = Start | Count | Name

  /** One parsed piece request: a name as typed and how many of it. */
  datatype Entry = Entry(name: string, count: int)

  /** The parser's variables: the finished entries, the count and name being
      read, and the stage. */
  datatype Parse = Parse(pieces: seq<Entry>, count: int, name: string, stage: Stage)

  const Initial: Parse := Parse([], 0, "", Start)

  /** The nested addPiece: nothing to close at Start, a count without a name
      or a name with count 0 is an error, and otherwise the entry is
      appended and the variables reset. */
  function Close(p: Parse): Option<Parse>
  {
    if p.stage == Start then Some(p)
    else if p.stage == Count then None
    else if p.count == 0 then None
    else Some(Parse(p.pieces + [Entry(p.name, p.count)], 0, "", Start))
  }

  /** One iteration of the character loop; None is the early return of nil.
      Whitespace closes the entry; a non-ASCII character is an error; a digit
      closes a pending name and accumulates into the count; any other
      character is appended to the name. */
  function Feed(p: Parse, c: char): Option<Parse>
  {
    if IsWhitespace(c) then Close(p)
    else if !IsAscii(c) then None
    else
      var p1 := if p.stage == Start then p.(stage := Count) else p;
      if IsDigit(c) then
        var p2 := if p1.stage == Name then Close(p1) else Some(p1);
        match p2
        case None => None
        case Some(q) => Some(q.(stage := Count, count := q.count * 10 + DigitValue(c)))
      else Some(p1.(stage := Name, name := p1.name + [c]))
  }

  /** The loop over the characters of s, starting from p. */
  function Scan(p: Parse, s: string): Option<Parse>
  {
    if s == [] then Some(p)
    else
      match Scan(p, s[..|s| - 1])
      case None => None
      case Some(q) => Feed(q, s[|s| - 1])
  }

  /** The piece line: the loop, then a final addPiece. */
  function ParsePieces(s: string): Option<seq<Entry>>
  {
    match Scan(Initial, s)
    case None => None
    case Some(p) =>
      match Close(p)
      case None => None
      case Some(q) => Some(q.pieces)
  }

  /** The loop of readPieces over the characters of the line, with the
      nested addPiece as Close. */
  method ReadPieces(line: string) returns (r: Option<seq<Entry>>)
    ensures r == ParsePieces(line)
  {
    var pieces: seq<Entry> := [];
    var currentCount := 0;
    var currentName := "";
    var stage := Start;
    var i := 0;
    while i < |line|
      invariant 0 <= i <= |line|
      invariant Scan(Initial, line[..i]) == Some(Parse(pieces, currentCount, currentName, stage))
    {
      var c := line[i];
      assert line[..i + 1][..i] == line[..i];
      if IsWhitespace(c) {
        var closed := Close(Parse(pieces, currentCount, currentName, stage));
        if closed.None? {
          ScanStuck(Initial, line, i + 1);
          return None;
        }
        pieces, currentCount, currentName, stage := closed.value.pieces, closed.value.count, closed.value.name, closed.value.stage;
        i := i + 1;
        continue;
      }
      if !IsAscii(c) {
        ScanStuck(Initial, line, i + 1);
        return None;
      }
      if stage == Start {
        stage := Count;
      }
      if IsDigit(c) {
        if stage == Name {
          var closed := Close(Parse(pieces, currentCount, currentName, stage));
          if closed.None? {
            ScanStuck(Initial, line, i + 1);
            return None;
          }
          pieces, currentCount, currentName, stage := closed.value.pieces, closed.value.count, closed.value.name, closed.value.stage;
        }
        stage := Count;
        currentCount := currentCount * 10 + DigitValue(c);
      } else {
        stage := Name;
        currentName := currentName + [c];
      }
      i := i + 1;
    }
    assert line[..|line|] == line;
    var closed := Close(Parse(pieces, currentCount, currentName, stage));
    if closed.None? {
      return None;
    }
    return Some(closed.value.pieces);
  }

  /** Once the loop has returned nil, the rest of the line does not matter. */
  lemma {:induction false} ScanStuck(p: Parse, s: string, k: nat)
    requires k <= |s| && Scan(p, s[..k]) == None
    ensures Scan(p, s) == None
    decreases |s| - k
  {
    if k < |s| {
      assert s[..k + 1][..k] == s[..k];
      ScanStuck(p, s, k + 1);
    } else {
      assert s[..k] == s;
    }
  }

  /** Scanning a concatenation scans the second part from where the first
      left off. */
  lemma {:induction false} ScanAppend(p: Parse, a: string, b: string)
    ensures Scan(p, a + b) == match Scan(p, a) case None => None case Some(q) => Scan(q, b)
    decreases |b|
  {
    if b == [] {
      assert a + b == a;
    } else {
      var b' := b[..|b| - 1];
      assert (a + b)[..|a + b| - 1] == a + b';
      ScanAppend(p, a, b');
    }
  }

  /** A name character: ASCII, not a digit and not whitespace. */
  predicate NameChar(c: char)
  {
    IsAscii(c) && !IsDigit(c) && !IsWhitespace(c)
  }

  /** What every parsed entry satisfies: a non-empty name of name characters
      and a positive count. */
  predicate WellFormed(es: seq<Entry>)
  {
    forall k :: 0 <= k < |es| ==> GoodEntry(es[k])
  }

  predicate GoodEntry(e: Entry)
  {
    |e.name| > 0 && e.count > 0 && forall i :: 0 <= i < |e.name| ==> NameChar(e.name[i])
  }

  /** The invariant of the parser's variables between characters. */
  predicate Coherent(p: Parse)
  {
    && WellFormed(p.pieces) && p.count >= 0
    && (forall i :: 0 <= i < |p.name| ==> NameChar(p.name[i]))
    && (p.stage == Start ==> p.count == 0 && p.name == [])
    && (p.stage == Count ==> p.name == [])
    && (p.stage == Name ==> p.name != [])
  }

  lemma CloseCoherent(p: Parse)
    requires Coherent(p) && Close(p).Some?
    ensures Coherent(Close(p).value) && Close(p).value.stage == Start
    ensures p.stage == Name ==> Close(p).value.pieces == p.pieces + [Entry(p.name, p.count)]
  {
    if p.stage == Name {
      var es := p.pieces + [Entry(p.name, p.count)];
      assert forall k :: 0 <= k < |p.pieces| ==> es[k] == p.pieces[k];
    }
  }

  lemma FeedCoherent(p: Parse, c: char)
    requires Coherent(p) && Feed(p, c).Some?
    ensures Coherent(Feed(p, c).value)
    ensures IsDigit(c) ==> Feed(p, c).value.stage == Count
  {
    if IsWhitespace(c) {
      CloseCoherent(p);
    } else if IsDigit(c) && p.stage == Name {
      CloseCoherent(p);
    }
  }

  lemma {:induction false} ScanCoherent(p: Parse, s: string)
    requires Coherent(p) && Scan(p, s).Some?
    ensures Coherent(Scan(p, s).value)
    decreases |s|
  {
    if s != [] {
      ScanCoherent(p, s[..|s| - 1]);
      FeedCoherent(Scan(p, s[..|s| - 1]).value, s[|s| - 1]);
    }
  }

  /** Every entry that comes out has a non-empty name of ASCII non-digit
      characters and a count above zero. */
  lemma ParsedWellFormed(s: string)
    requires ParsePieces(s).Some?
    ensures WellFormed(ParsePieces(s).value)
  {
    ScanCoherent(Initial, s);
    CloseCoherent(Scan(Initial, s).value);
  }

  /** Empty or all-whitespace input leaves the loop where it began. */
  lemma {:induction false} ScanBlank(s: string)
    requires forall i :: 0 <= i < |s| ==> IsWhitespace(s[i])
    ensures Scan(Initial, s) == Some(Initial)
    decreases |s|
  {
    if s != [] {
      ScanBlank(s[..|s| - 1]);
    }
  }

  /** Empty or whitespace-only input parses to no entries. */
  lemma BlankParsesEmpty(s: string)
    requires forall i :: 0 <= i < |s| ==> IsWhitespace(s[i])
    ensures ParsePieces(s) == Some([])
  {
    ScanBlank(s);
  }

  /** A character that is neither whitespace nor ASCII makes the parse nil. */
  lemma NonAsciiRejected(s: string, i: nat)
    requires i < |s| && !IsWhitespace(s[i]) && !IsAscii(s[i])
    ensures ParsePieces(s) == None
  {
    assert s[..i + 1][..i] == s[..i];
    ScanStuck(Initial, s, i + 1);
  }

  /** A count followed by whitespace or by the end of the line, with no name
      in between, makes the parse nil. */
  lemma CountWithoutName(s: string, i: nat)
    requires i < |s| && IsDigit(s[i]) && (i + 1 == |s| || IsWhitespace(s[i + 1]))
    ensures ParsePieces(s) == None
  {
    assert s[..i + 1][..i] == s[..i];
    if Scan(Initial, s[..i + 1]).None? {
      ScanStuck(Initial, s, i + 1);
    } else {
      ScanCoherent(Initial, s[..i]);
      FeedCoherent(Scan(Initial, s[..i]).value, s[i]);
      if i + 1 < |s| {
        assert s[..i + 2][..i + 1] == s[..i + 1];
        ScanStuck(Initial, s, i + 2);
      } else {
        assert s[..i + 1] == s;
      }
    }
  }

  /** Once a name is being read with count 0, the entry can never close, so
      the parse is nil. */
  lemma {:induction false} ZeroCountStuck(q: Parse, r: string)
    requires q.stage == Name && q.count == 0
    ensures Scan(q, r).Some? ==> Scan(q, r).value.stage == Name && Scan(q, r).value.count == 0
    decreases |r|
  {
    if r != [] {
      ZeroCountStuck(q, r[..|r| - 1]);
    }
  }

  /** A name that is reached with count 0 makes the parse nil. */
  lemma ZeroCountRejected(s: string, k: nat)
    requires k <= |s| && Scan(Initial, s[..k]).Some?
    requires Scan(Initial, s[..k]).value.stage == Name && Scan(Initial, s[..k]).value.count == 0
    ensures ParsePieces(s) == None
  {
    var q := Scan(Initial, s[..k]).value;
    assert s == s[..k] + s[k..];
    ScanAppend(Initial, s[..k], s[k..]);
    ZeroCountStuck(q, s[k..]);
  }

  /** A name character that starts the line or follows whitespace begins a
      name with no count, so the parse is nil. */
  lemma NameFirstRejected(s: string, i: nat)
    requires i < |s| && NameChar(s[i]) && (i == 0 || IsWhitespace(s[i - 1]))
    ensures ParsePieces(s) == None
  {
    assert s[..i + 1][..i] == s[..i];
    if Scan(Initial, s[..i + 1]).None? {
      ScanStuck(Initial, s, i + 1);
    } else {
      ScanCoherent(Initial, s[..i]);
      if i > 0 {
        assert s[..i][..i - 1] == s[..i - 1];
        ScanCoherent(Initial, s[..i - 1]);
        CloseCoherent(Scan(Initial, s[..i - 1]).value);
      }
      ZeroCountRejected(s, i + 1);
    }
  }

  /** The canonical form of an entry list: each count in decimal followed by
      its name, with nothing in between. */
  function Format(es: seq<Entry>): string
    requires forall k :: 0 <= k < |es| ==> es[k].count >= 0
  {
    if es == [] then []
    else Format(es[..|es| - 1]) + Decimal(es[|es| - 1].count) + es[|es| - 1].name
  }

  /** Where the loop stands after the canonical form of es: at Start for no
      entries, otherwise with the last entry read but not yet closed. */
  function After(es: seq<Entry>): Parse
  {
    if es == [] then Initial else Parse(es[..|es| - 1], es[|es| - 1].count, es[|es| - 1].name, Name)
  }

  /** Digits read from a fresh count accumulate to their decimal value. */
  lemma {:induction false} ScanDigits(ps: seq<Entry>, d: string)
    requires AllDigits(d)
    ensures Scan(Parse(ps, 0, "", Count), d) == Some(Parse(ps, DigitsValue(d), "", Count))
    decreases |d|
  {
    if d != [] {
      ScanDigits(ps, d[..|d| - 1]);
    }
  }

  /** Name characters read after a count collect into the name. */
  lemma {:induction false} ScanName(ps: seq<Entry>, n: int, name: string)
    requires forall i :: 0 <= i < |name| ==> NameChar(name[i])
    ensures Scan(Parse(ps, n, "", Count), name) == Some(Parse(ps, n, name, if name == [] then Count else Name))
    decreases |name|
  {
    if name != [] {
      var name' := name[..|name| - 1];
      ScanName(ps, n, name');
      assert name' + [name[|name| - 1]] == name;
    }
  }

  /** A digit after a closed or closable position starts a fresh count. */
  lemma FeedFirstDigit(es: seq<Entry>, c: char)
    requires WellFormed(es) && IsDigit(c)
    ensures Feed(After(es), c) == Feed(Parse(es, 0, "", Count), c)
  {
    if es != [] {
      assert es[..|es| - 1] + [Entry(es[|es| - 1].name, es[|es| - 1].count)] == es;
    }
  }

  /** Reading one more entry in canonical form. */
  lemma ScanEntry(es: seq<Entry>, e: Entry)
    requires WellFormed(es) && GoodEntry(e)
    ensures Scan(After(es), Decimal(e.count) + e.name) == Some(After(es + [e]))
  {
    var esE := es + [e];
    assert esE[|esE| - 1] == e && esE[..|esE| - 1] == es;
    var d := Decimal(e.count);
    ScanAppend(After(es), d, e.name);
    assert d == [d[0]] + d[1..];
    ScanAppend(After(es), [d[0]], d[1..]);
    ScanAppend(Parse(es, 0, "", Count), [d[0]], d[1..]);
    FeedFirstDigit(es, d[0]);
    assert AllDigits(d[1..]);
    ScanDigits(es, d);
    assert 0 < |esE| && esE[|esE| - 1].name == e.name;
    ScanName(es, e.count, e.name);
  }

  lemma {:induction false} ScanFormat(es: seq<Entry>)
    requires WellFormed(es)
    ensures Scan(Initial, Format(es)) == Some(After(es))
    decreases |es|
  {
    if es != [] {
      var es', e := es[..|es| - 1], es[|es| - 1];
      assert es' + [e] == es;
      assert WellFormed(es') by {
        assert forall k :: 0 <= k < |es'| ==> es'[k] == es[k];
      }
      ScanFormat(es');
      assert Format(es) == Format(es') + (Decimal(e.count) + e.name);
      ScanAppend(Initial, Format(es'), Decimal(e.count) + e.name);
      ScanEntry(es', e);
    }
  }

  /** The parser reads back exactly the entries of any well-formed list in
      canonical form, in order; with ParsedWellFormed this characterises
      what the parser can produce. */
  lemma ParseFormat(es: seq<Entry>)
    requires WellFormed(es)
    ensures ParsePieces(Format(es)) == Some(es)
  {
    ScanFormat(es);
    if es != [] {
      var e := es[|es| - 1];
      assert GoodEntry(e);
      assert es[..|es| - 1] + [Entry(e.name, e.count)] == es;
    }
  }

  /** The example of the prompt: three T, one O and two I pieces. */
  lemma ParseExample()
    ensures ParsePieces("3t1o2i") == Some([Entry("t", 3), Entry("o", 1), Entry("i", 2)])
  {
    var es := [Entry("t", 3), Entry("o", 1), Entry("i", 2)];
    assert Decimal(3) == "3" && Decimal(1) == "1" && Decimal(2) == "2";
    assert es[..2] == [Entry("t", 3), Entry("o", 1)] && es[..2][..1] == [Entry("t", 3)];
    assert [Entry("t", 3)][..0] == [];
    assert Format([Entry("t", 3)]) == "3t";
    assert Format(es[..2]) == "3t1o";
    assert Format(es) == "3t1o2i";
    ParseFormat(es);
  }

  /** A count below one and a name without a count are both refused. */
  lemma ParseRejectExamples()
    ensures ParsePieces("0t") == None
    ensures ParsePieces("t") == None
    ensures ParsePieces("3t 2") == None
  {
    assert "0t"[..2] == "0t" && "0t"[..1] == "0" && "0"[..0] == [];
    assert Scan(Initial, "0") == Some(Parse([], 0, "", Count));
    assert "0t"[1] == 't' && [] + ['t'] == "t";
    assert Scan(Initial, "0t") == Some(Parse([], 0, "t", Name));
    ZeroCountRejected("0t", 2);
    NameFirstRejected("t", 0);
    CountWithoutName("3t 2", 3);
  }

  // ---------------------------------------------------------------------
  // addPieces

  /** Every entry names a registered piece and asks for a positive count. */
  predicate Accepted(ids: map<string, int>, es: seq<Entry>)
  {
    forall k :: 0 <= k < |es| ==> Lookup(ids, es[k].name).Some? && es[k].count > 0
  }

  lemma AcceptedStep(ids: map<string, int>, es: seq<Entry>, k: nat)
    requires k < |es| && Accepted(ids, es[..k]) && Lookup(ids, es[k].name).Some? && es[k].count > 0
    ensures Accepted(ids, es[..k + 1])
  {
    assert forall j :: 0 <= j < k ==> es[..k + 1][j] == es[..k][j];
  }

  /** The counts after adding every entry's count to its piece's count. */
  function Tally(ids: map<string, int>, counts: seq<int>, es: seq<Entry>): (r: seq<int>)
    ensures |r| == |counts|
  {
    if es == [] then counts
    else
      var c := Tally(ids, counts, es[..|es| - 1]);
      var e := es[|es| - 1];
      var id := Lookup(ids, e.name);
      if id.Some? && 0 <= id.value < |c| then c[id.value := c[id.value] + e.count] else c
  }

  /** The pips the entries ask for: count times pip count of the named piece. */
  function EntryPips(pieces: seq<Piece>, ids: map<string, int>, es: seq<Entry>): int
  {
    if es == [] then 0
    else
      var e := es[|es| - 1];
      var id := Lookup(ids, e.name);
      EntryPips(pieces, ids, es[..|es| - 1]) + if id.Some? && 0 <= id.value < |pieces| then pieces[id.value].pipCount * e.count else 0
  }

  /** Registering the entries raises the store's pip total by exactly the
      pips the entries ask for. */
  lemma {:induction false} TallyTotal(pieces: seq<Piece>, ids: map<string, int>, counts: seq<int>, es: seq<Entry>)
    requires |counts| == |pieces|
    ensures PipTotal(pieces, Tally(ids, counts, es)) == PipTotal(pieces, counts) + EntryPips(pieces, ids, es)
    decreases |es|
  {
    if es != [] {
      var c := Tally(ids, counts, es[..|es| - 1]);
      TallyTotal(pieces, ids, counts, es[..|es| - 1]);
      var e := es[|es| - 1];
      var id := Lookup(ids, e.name);
      if id.Some? && 0 <= id.value < |c| {
        PipTotalUpdate(pieces, c, id.value, e.count);
      }
    }
  }

  /** Registers every parsed entry with the store, stopping at the first
      unknown name or refused count; after such a failure every registration
      is cleared, including earlier ones. */
  method AddPieces(store: PieceStore, entries: seq<Entry>) returns (allValid: bool)
    requires store.Valid()
    modifies store
    ensures store.Valid() && store.pieces == old(store.pieces) && store.idByName == old(store.idByName)
    ensures allValid <==> Accepted(old(store.idByName), entries)
    ensures allValid ==> && store.initialCounts == Tally(old(store.idByName), old(store.initialCounts), entries)
                         && store.currentCounts == Tally(old(store.idByName), old(store.currentCounts), entries)
    ensures !allValid ==> forall id :: 0 <= id < |store.pieces| ==> store.initialCounts[id] == 0 && store.currentCounts[id] == 0
  {
    ghost var ids, initial, current := store.idByName, store.initialCounts, store.currentCounts;
    allValid := true;
    var k := 0;
    while k < |entries|
      invariant 0 <= k <= |entries| && store.Valid()
      invariant store.pieces == old(store.pieces) && store.idByName == ids
      invariant Accepted(ids, entries[..k])
      invariant store.initialCounts == Tally(ids, initial, entries[..k])
      invariant store.currentCounts == Tally(ids, current, entries[..k])
    {
      var entry := entries[k];
      assert entries[..k + 1][..k] == entries[..k] && entries[..k + 1][k] == entry;
      var id := store.GetID(entry.name);
      if id.None? {
        allValid := false;
        break;
      }
      var registered := store.RegisterInitialCount(id.value, entry.count);
      if !registered {
        allValid := false;
        break;
      }
      AcceptedStep(ids, entries, k);
      k := k + 1;
    }
    if allValid {
      assert entries[..k] == entries;
    } else {
      store.ClearRegistrations();
    }
  }
}
