/** The f-string templates of LangChain's `ChatPromptTemplate` (langchain_app.py:23-27).
    The system prompt given to `create_conversation_chain` is a Python format-string
    template: it is parsed when the chain is built, and formatted by `string.Formatter` with
    the keyword arguments `history` and `input` on every call of the chain
    (langchain_app.py:36). */
module Template {
  import opened Wrappers

  /** One piece of a parsed template: a literal character, or a replacement field
      `{name!conversion:spec}` with `raw`, the text between its braces. */
  datatype Piece =
    | Literal(c: char)
    | Field(raw: string, name: string, conversion: Option<char>, spec: string)

  // The ValueError messages of Python's format-string parser.
  const SingleOpen := "Single '{' encountered in format string"
  const SingleClose := "Single '}' encountered in format string"
  const ExpectedClose := "expected '}' before end of string"
  const UnexpectedOpen := "unexpected '{' in field name"
  const ConversionEnd := "end of string while looking for conversion specifier"
  const ColonExpected := "expected ':' after conversion specifier"
  const UnmatchedSpec := "unmatched '{' in format spec"

  /** The KeyError of a field naming a keyword argument that was not passed. */
  function KeyError(name: string): string
  {
    "'" + name + "'"
  }

  /** The IndexError of a positional field: `string.Formatter` looks the position up in the
      empty tuple of positional arguments. */
  const IndexOutOfRange := "tuple index out of range"

  /** The ValueError LangChain raises when a template has an input variable named `stop`. */
  const StopReserved := "Cannot have an input variable named 'stop', as it is used internally, please rename."

  function UnknownConversion(c: char): string
  {
    "Unknown conversion specifier " + [c]
  }

  /** The first index at or after `i` that holds `]`, or the end of `t`. */
  function BracketEnd(t: string, i: nat): (j: nat)
    requires i <= |t|
    ensures i <= j <= |t|
    ensures j < |t| ==> t[j] == ']'
    decreases |t| - i
  {
    if i == |t| || t[i] == ']' then i else BracketEnd(t, i + 1)
  }

  /** The characters that end a field name. */
  predicate EndsName(c: char)
  {
    c == '}' || c == ':' || c == '!'
  }

  /** Where the field name that starts at `i` ends: at the first `}`, `:` or `!` outside
      square brackets. A `{` in the name, or the end of the template, is an error. */
  function NameEnd(t: string, i: nat): (r: Result<nat, string>)
    requires i <= |t|
    ensures r.Success? ==> i <= r.value < |t| && EndsName(t[r.value])
    decreases |t| - i
  {
    if i == |t| then Failure(ExpectedClose)
    else if t[i] == '{' then Failure(UnexpectedOpen)
    else if t[i] == '[' then NameEnd(t, BracketEnd(t, i + 1))
    else if EndsName(t[i]) then Success(i)
    else NameEnd(t, i + 1)
  }

  /** Where the format spec that starts at `i` ends: at the `}` that closes the field,
      `depth` counting the braces of fields nested in the spec. */
  function SpecEnd(t: string, i: nat, depth: nat): (r: Result<nat, string>)
    requires i <= |t| && depth > 0
    ensures r.Success? ==> i <= r.value < |t| && t[r.value] == '}'
    decreases |t| - i
  {
    if i == |t| then Failure(UnmatchedSpec)
    else if t[i] == '{' then SpecEnd(t, i + 1, depth + 1)
    else if t[i] == '}' then (if depth == 1 then Success(i) else SpecEnd(t, i + 1, depth - 1))
    else SpecEnd(t, i + 1, depth)
  }

  /** A replacement field and the template text after its closing brace. */
  datatype Scanned = Scanned(field: Piece, rest: string)

  /** The field whose format spec starts at `i` of `t`. */
  function WithSpec(t: string, name: string, conversion: Option<char>, i: nat): (r: Result<Scanned, string>)
    requires i <= |t|
    ensures r.Success? ==> |r.value.rest| < |t| - i
  {
    match SpecEnd(t, i, 1)
    case Failure(e) => Failure(e)
    case Success(j) => Success(Scanned(Field(t[..j], name, conversion, t[i..j]), t[j + 1..]))
  }

  /** The replacement field at the start of `t`, the template text after an opening brace:
      a name, then an optional `!` and conversion character, then an optional `:` and spec. */
  function ScanField(t: string): (r: Result<Scanned, string>)
    ensures r.Success? ==> |r.value.rest| < |t|
  {
    match NameEnd(t, 0)
    case Failure(e) => Failure(e)
    case Success(k) =>
      if t[k] == '}' then Success(Scanned(Field(t[..k], t[..k], None, ""), t[k + 1..]))
      else if t[k] == ':' then WithSpec(t, t[..k], None, k + 1)
      else if k + 1 == |t| then Failure(ConversionEnd)
      else if k + 2 == |t| then Failure(UnmatchedSpec)
      else if t[k + 2] == '}' then Success(Scanned(Field(t[..k + 2], t[..k], Some(t[k + 1]), ""), t[k + 3..]))
      else if t[k + 2] == ':' then WithSpec(t, t[..k], Some(t[k + 1]), k + 3)
      else Failure(ColonExpected)
  }

  /** The template text a piece was read from: a literal brace is written doubled. */
  function PieceText(p: Piece): string
  {
    match p
    case Literal(c) => if c == '{' || c == '}' then [c, c] else [c]
    case Field(raw, _, _, _) => "{" + raw + "}"
  }

  /** The template text of a sequence of pieces. */
  function Unparse(ps: seq<Piece>): string
  {
    if ps == [] then [] else PieceText(ps[0]) + Unparse(ps[1..])
  }

  /** A scanned field is the text up to its closing brace. */
  lemma ScanFieldText(t: string)
    ensures ScanField(t).Success? ==>
      ScanField(t).value.field.Field? && t == ScanField(t).value.field.raw + "}" + ScanField(t).value.rest
  {
    if ScanField(t).Success? {
      var k := NameEnd(t, 0).value;
      var j := if t[k] == '}' then k
               else if t[k] == ':' then SpecEnd(t, k + 1, 1).value
               else if t[k + 2] == '}' then k + 2
               else SpecEnd(t, k + 3, 1).value;
      assert t == t[..j] + "}" + t[j + 1..];
    }
  }

  function Cons(p: Piece, r: Result<seq<Piece>, string>): Result<seq<Piece>, string>
  {
    match r
    case Failure(e) => Failure(e)
    case Success(ps) => Success([p] + ps)
  }

  lemma UnparseCons(p: Piece, ps: seq<Piece>)
    ensures Unparse([p] + ps) == PieceText(p) + Unparse(ps)
  {
    assert ([p] + ps)[0] == p && ([p] + ps)[1..] == ps;
  }

  /** Python's format-string parser, as run when the prompt template is built: `{{` and
      `}}` stand for single braces, `{` opens a field, and a lone brace is a ValueError. */
  function Parse(t: string): Result<seq<Piece>, string>
    decreases |t|
  {
    if t == [] then Success([])
    else if t[0] == '{' then
      if |t| == 1 then Failure(SingleOpen)
      else if t[1] == '{' then Cons(Literal('{'), Parse(t[2..]))
      else match ScanField(t[1..])
        case Failure(e) => Failure(e)
        case Success(s) => Cons(s.field, Parse(s.rest))
    else if t[0] == '}' then
      if |t| > 1 && t[1] == '}' then Cons(Literal('}'), Parse(t[2..])) else Failure(SingleClose)
    else Cons(Literal(t[0]), Parse(t[1..]))
  }

  /** Whether some field of the parsed template is named `stop`. */
  predicate NamesStop(ps: seq<Piece>)
  {
    exists i :: 0 <= i < |ps| && ps[i].Field? && ps[i].name == "stop"
  }

  /** Building the prompt template (langchain_app.py:23-27): the template must parse, and
      LangChain refuses an input variable named `stop`, which it reserves for itself. */
  function Build(t: string): (r: Result<seq<Piece>, string>)
    ensures r.Success? ==> r == Parse(t)
    ensures Parse(t).Failure? ==> r == Parse(t)
    ensures Parse(t).Success? ==> (r.Success? <==> !NamesStop(Parse(t).value))
    ensures r.Failure? && Parse(t).Success? ==> r.error == StopReserved
    ensures r.Success? ==> forall i :: 0 <= i < |r.value| && r.value[i].Field? ==> r.value[i].name != "stop"
  {
    match Parse(t)
    case Failure(e) => Failure(e)
    case Success(ps) => if NamesStop(ps) then Failure(StopReserved) else Success(ps)
  }

  /** One step of the round trip: a piece in front of a template that round-trips. */
  lemma RoundTripCons(p: Piece, u: string, t: string)
    requires Parse(t) == Cons(p, Parse(u)) && Parse(u).Success? && Unparse(Parse(u).value) == u
    requires t == PieceText(p) + u
    ensures Unparse(Parse(t).value) == t
  {
    UnparseCons(p, Parse(u).value);
  }

  /** Parsing loses nothing: writing the pieces of a template that parses back out, with
      literal braces doubled and each field in its braces, gives the template again. */
  lemma {:induction false} ParseRoundTrip(t: string)
    ensures Parse(t).Success? ==> Unparse(Parse(t).value) == t
    decreases |t|
  {
    if t != [] && Parse(t).Success? {
      if t[0] != '{' && t[0] != '}' {
        ParseRoundTrip(t[1..]);
        RoundTripCons(Literal(t[0]), t[1..], t);
      } else if t[1] == t[0] {
        ParseRoundTrip(t[2..]);
        RoundTripCons(Literal(t[0]), t[2..], t);
      } else {
        ScanFieldText(t[1..]);
        var sc := ScanField(t[1..]).value;
        ParseRoundTrip(sc.rest);
        RoundTripCons(sc.field, sc.rest, t);
      }
    }
  }

  /** The keyword a field name looks up: the name up to its first `.` or `[`. */
  function Head(name: string): (h: string)
    ensures h <= name
  {
    if name == [] || name[0] == '.' || name[0] == '[' then [] else [name[0]] + Head(name[1..])
  }

  predicate AllDigits(s: string)
  {
    forall i :: 0 <= i < |s| ==> '0' <= s[i] <= '9'
  }

  /** Whether a field looks up a position rather than a keyword: `string.Formatter` numbers
      an empty field name automatically, and a non-empty head of digits is an index. */
  predicate Positional(name: string)
  {
    name == "" || (Head(name) != "" && AllDigits(Head(name)))
  }

  function Prefix(a: string, r: Result<string, string>): Result<string, string>
  {
    if r.Failure? then r else Success(a + r.value)
  }

  /** The text of `first` followed by the text of `rest`, or the first error. */
  function Then(first: Result<string, string>, rest: Result<string, string>): Result<string, string>
  {
    if first.Failure? then first else Prefix(first.value, rest)
  }

  /** One piece formatted with the keyword arguments `history` and `input`: a field naming
      another keyword, or a position, raises before anything is sent; a plain `{input}`
      (or `{input!s}`) becomes the message. Other fields on `history` or `input` are
      kept as written. */
  function RenderPiece(p: Piece, input: string): (r: Result<string, string>)
    ensures p.Literal? ==> r == Success([p.c])
    ensures p.Field? && r.Success? ==> Head(p.name) == "input" || Head(p.name) == "history"
    ensures p.Field? && Head(p.name) != "input" && Head(p.name) != "history" ==>
      r == Failure(if Positional(p.name) then IndexOutOfRange else KeyError(Head(p.name)))
    ensures p.Field? && p.name == "input" && p.conversion == None && p.spec == "" ==> r == Success(input)
  {
    match p
    case Literal(c) => Success([c])
    case Field(raw, name, conversion, spec) =>
      HeadWhole("input");
      var h := Head(name);
      if h != "input" && h != "history" then
        Failure(if Positional(name) then IndexOutOfRange else KeyError(h))
      else if conversion.Some? && conversion.value != 'r' && conversion.value != 's' && conversion.value != 'a' then Failure(UnknownConversion(conversion.value))
      else if name == "input" && (conversion == None || conversion == Some('s')) && spec == "" then Success(input)
      else Success("{" + raw + "}")
  }

  /** The pieces formatted in order; the first piece that raises decides the error. */
  function Render(ps: seq<Piece>, input: string): Result<string, string>
  {
    if ps == [] then Success([]) else Then(RenderPiece(ps[0], input), Render(ps[1..], input))
  }

  /** Formatting succeeds exactly when every piece formats. */
  lemma {:induction false} RenderSucceeds(ps: seq<Piece>, input: string)
    ensures Render(ps, input).Success? <==> forall i :: 0 <= i < |ps| ==> RenderPiece(ps[i], input).Success?
    decreases |ps|
  {
    if ps != [] {
      RenderSucceeds(ps[1..], input);
      assert forall i :: 0 < i < |ps| ==> ps[i] == ps[1..][i - 1];
    }
  }

  /** A template that formats for some message also builds: a field named `stop` would
      have raised its KeyError. */
  lemma FormatBuilds(t: string, input: string)
    ensures Format(t, input).Success? ==> Build(t).Success?
  {
    if Format(t, input).Success? {
      var ps := Parse(t).value;
      RenderSucceeds(ps, input);
      HeadWhole("stop");
    }
  }

  /** Formatting raises the error of the first piece that raises, whatever follows it. */
  lemma {:induction false} RenderRaisesFirst(ps: seq<Piece>, input: string, i: nat)
    requires i < |ps| && RenderPiece(ps[i], input).Failure?
    requires forall j :: 0 <= j < i ==> RenderPiece(ps[j], input).Success?
    ensures Render(ps, input) == RenderPiece(ps[i], input)
    decreases i
  {
    if i > 0 {
      assert ps[1..][i - 1] == ps[i];
      forall j | 0 <= j < i - 1 ensures RenderPiece(ps[1..][j], input).Success? {
        assert ps[1..][j] == ps[j + 1];
      }
      RenderRaisesFirst(ps[1..], input, i - 1);
    }
  }

  /** The text of the system message for the message `input`: the parsed template with its
      fields formatted; the first error of parsing or formatting is raised. */
  function Format(t: string, input: string): (r: Result<string, string>)
    ensures r.Success? ==> Parse(t).Success?
  {
    match Parse(t)
    case Failure(e) => Failure(e)
    case Success(ps) => Render(ps, input)
  }

  /** `s` with each brace doubled, the way to write a literal brace in a template. */
  function Escape(s: string): string
  {
    if s == [] then []
    else (if s[0] == '{' || s[0] == '}' then [s[0], s[0]] else [s[0]]) + Escape(s[1..])
  }

  lemma EscapeCons(a: string)
    requires a != []
    ensures Escape(a) == Escape([a[0]]) + Escape(a[1..])
  {
    assert [a[0]][1..] == [];
  }

  /** One escaped character in front of a template parses to one literal piece. */
  lemma ParseEscapedChar(c: char, u: string)
    ensures Parse(Escape([c]) + u) == Cons(Literal(c), Parse(u))
  {
    var e := Escape([c]) + u;
    assert [c][1..] == [];
    if c == '{' || c == '}' {
      assert Escape([c]) == [c, c];
      assert e[2..] == u;
    } else {
      assert Escape([c]) == [c];
      assert e[1..] == u;
    }
  }

  lemma RenderLiteral(c: char, ps: seq<Piece>, input: string)
    ensures Render([Literal(c)] + ps, input) == Prefix([c], Render(ps, input))
  {
    var qs := [Literal(c)] + ps;
    assert qs[0] == Literal(c) && qs[1..] == ps;
  }

  /** One literal piece per character of `a`. */
  function Literals(a: string): (ps: seq<Piece>)
    ensures |ps| == |a|
  {
    if a == [] then [] else [Literal(a[0])] + Literals(a[1..])
  }

  lemma {:induction false} LiteralsAt(a: string)
    ensures forall i :: 0 <= i < |a| ==> Literals(a)[i] == Literal(a[i])
  {
    if a != [] {
      LiteralsAt(a[1..]);
      assert forall i :: 0 < i < |a| ==> a[i] == a[1..][i - 1];
    }
  }

  /** Text with doubled braces in front of a template parses to one literal per character
      in front of the template's pieces, and parses exactly when the template does. */
  lemma {:induction false} ParseAfterEscaped(a: string, t: string)
    ensures Parse(Escape(a) + t) ==
      if Parse(t).Success? then Success(Literals(a) + Parse(t).value) else Parse(t)
    decreases |a|
  {
    if a == [] {
      assert Escape(a) + t == t;
      if Parse(t).Success? {
        assert Literals(a) + Parse(t).value == Parse(t).value;
      }
    } else {
      var u := Escape(a[1..]) + t;
      ParseAfterEscaped(a[1..], t);
      EscapeConsAppend(a, t);
      ParseEscapedChar(a[0], u);
      if Parse(t).Success? {
        LiteralsConsAppend(a, Parse(t).value);
      }
    }
  }

  lemma EscapeConsAppend(a: string, t: string)
    requires a != []
    ensures Escape(a) + t == Escape([a[0]]) + (Escape(a[1..]) + t)
  {
    EscapeCons(a);
    AppendAssoc(Escape([a[0]]), Escape(a[1..]), t);
  }

  lemma AppendAssoc<T>(x: seq<T>, y: seq<T>, z: seq<T>)
    ensures (x + y) + z == x + (y + z)
  {
  }

  lemma LiteralsConsAppend(a: string, ps: seq<Piece>)
    requires a != []
    ensures Literals(a) + ps == [Literal(a[0])] + (Literals(a[1..]) + ps)
  {
  }

  /** Rendering literal pieces in front of other pieces puts their characters in front. */
  lemma {:induction false} RenderLiterals(a: string, ps: seq<Piece>, input: string)
    ensures Render(Literals(a) + ps, input) == Prefix(a, Render(ps, input))
    decreases |a|
  {
    if a == [] {
      assert Literals(a) + ps == ps;
      if Render(ps, input).Success? {
        assert a + Render(ps, input).value == Render(ps, input).value;
      }
    } else {
      RenderLiterals(a[1..], ps, input);
      assert Literals(a) + ps == [Literal(a[0])] + (Literals(a[1..]) + ps);
      RenderLiteral(a[0], Literals(a[1..]) + ps, input);
      if Render(ps, input).Success? {
        var s := Render(ps, input).value;
        assert [a[0]] + (a[1..] + s) == a + s by {
          assert a == [a[0]] + a[1..];
        }
      }
    }
  }

  /** Text with doubled braces in front of a template only adds its single-brace form in
      front of the formatted text, and parses exactly when the template does. */
  lemma FormatAfterEscaped(a: string, t: string, input: string)
    ensures Parse(Escape(a) + t).Success? <==> Parse(t).Success?
    ensures Format(Escape(a) + t, input) == Prefix(a, Format(t, input))
  {
    ParseAfterEscaped(a, t);
    if Parse(t).Success? {
      RenderLiterals(a, Parse(t).value, input);
    }
  }

  /** A template whose braces are all doubled formats, for every message, to the text with
      single braces: `Escape` is undone by formatting. */
  lemma FormatEscaped(s: string, input: string)
    ensures Format(Escape(s), input) == Success(s)
  {
    FormatAfterEscaped(s, [], input);
    assert Escape(s) + [] == Escape(s);
    assert s + [] == s;
  }

  lemma {:induction false} EscapeBraceFree(s: string)
    requires '{' !in s && '}' !in s
    ensures Escape(s) == s
  {
    if s != [] {
      assert s == [s[0]] + s[1..];
      EscapeBraceFree(s[1..]);
    }
  }

  /** A system prompt without braces is sent as written, whatever the message. */
  lemma FormatPlainText(s: string, input: string)
    requires '{' !in s && '}' !in s
    ensures Format(s, input) == Success(s)
  {
    EscapeBraceFree(s);
    FormatEscaped(s, input);
  }

  /** The characters that end a field name, open a bracket or open a nested field. */
  predicate Special(c: char)
  {
    EndsName(c) || c == '{' || c == '['
  }

  /** A name with none of the characters that end a field name or open a bracket. */
  predicate PlainName(name: string)
  {
    forall i :: 0 <= i < |name| ==> !Special(name[i])
  }

  lemma {:induction false} NameEndPlain(t: string, i: nat, k: nat)
    requires i <= k < |t| && t[k] == '}'
    requires forall j :: i <= j < k ==> !Special(t[j])
    ensures NameEnd(t, i) == Success(k)
    decreases k - i
  {
    if i < k {
      NameEndPlain(t, i + 1, k);
    }
  }

  lemma ScanPlainField(name: string, rest: string)
    requires PlainName(name)
    ensures ScanField(name + "}" + rest) == Success(Scanned(Field(name, name, None, ""), rest))
  {
    var u := name + "}" + rest;
    NameEndPlain(u, 0, |name|);
    assert u[..|name|] == name && u[|name| + 1..] == rest;
  }

  lemma ParsePlainField(name: string, rest: string)
    requires PlainName(name)
    ensures Parse("{" + name + "}" + rest) == Cons(Field(name, name, None, ""), Parse(rest))
  {
    var t := "{" + name + "}" + rest;
    assert t[1..] == name + "}" + rest;
    ScanPlainField(name, rest);
    assert t[1] != '{' by {
      if |name| > 0 { assert t[1] == name[0]; } else { assert t[1] == '}'; }
    }
  }

  /** A field `{name}` with a plain name, in front of `rest`: the field is read whole,
      and, when `rest` parses, the field is formatted before `rest`. */
  lemma FormatField(name: string, rest: string, input: string)
    requires PlainName(name)
    ensures Parse("{" + name + "}" + rest) == Cons(Field(name, name, None, ""), Parse(rest))
    ensures Parse(rest).Success? ==>
      Format("{" + name + "}" + rest, input) ==
      Then(RenderPiece(Field(name, name, None, ""), input), Format(rest, input))
  {
    ParsePlainField(name, rest);
    if Parse(rest).Success? {
      var qs := [Field(name, name, None, "")] + Parse(rest).value;
      assert qs[0] == Field(name, name, None, "") && qs[1..] == Parse(rest).value;
    }
  }

  /** A template with one plain field `{name}` between escaped texts: it parses, and it
      formats to the texts around whatever the field formats to. */
  lemma FormatOneField(a: string, name: string, b: string, input: string)
    requires PlainName(name)
    ensures Parse(Escape(a) + ("{" + name + "}" + Escape(b))).Success?
    ensures Format(Escape(a) + ("{" + name + "}" + Escape(b)), input) ==
      Prefix(a, Then(RenderPiece(Field(name, name, None, ""), input), Success(b)))
  {
    FieldBeforeEscaped(name, b, input);
    FormatAfterEscaped(a, "{" + name + "}" + Escape(b), input);
  }

  lemma FieldBeforeEscaped(name: string, b: string, input: string)
    requires PlainName(name)
    ensures Parse("{" + name + "}" + Escape(b)).Success?
    ensures Format("{" + name + "}" + Escape(b), input) ==
      Then(RenderPiece(Field(name, name, None, ""), input), Success(b))
  {
    FormatField(name, Escape(b), input);
    FormatEscaped(b, input);
    FormatAfterEscaped(b, [], input);
    assert Escape(b) + [] == Escape(b);
  }

  lemma {:induction false} HeadWhole(name: string)
    requires '.' !in name && '[' !in name
    ensures Head(name) == name
  {
    if name != [] {
      assert name == [name[0]] + name[1..];
      HeadWhole(name[1..]);
    }
  }

  lemma RenderInputField(input: string)
    ensures RenderPiece(Field("input", "input", None, ""), input) == Success(input)
  {
    HeadWhole("input");
  }

  /** `{input}` in the system prompt is replaced with the message. */
  lemma FormatSubstitutesInput(a: string, b: string, input: string)
    ensures Format(Escape(a) + ("{input}" + Escape(b)), input) == Success(a + (input + b))
  {
    assert PlainName("input");
    assert "{" + "input" + "}" == "{input}";
    FormatOneField(a, "input", b, input);
    RenderInputField(input);
  }

  /** A template with one plain field between escaped texts builds unless the field is
      named `stop`. */
  lemma BuildOneField(a: string, name: string, b: string)
    requires PlainName(name) && name != "stop"
    ensures Build(Escape(a) + ("{" + name + "}" + Escape(b))).Success?
  {
    var t := "{" + name + "}" + Escape(b);
    ParseAfterEscaped(b, []);
    assert Escape(b) + [] == Escape(b) && Literals(b) + [] == Literals(b);
    ParsePlainField(name, Escape(b));
    ParseAfterEscaped(a, t);
    LiteralsAt(a);
    LiteralsAt(b);
    var ps := Parse(Escape(a) + t).value;
    assert ps == Literals(a) + ([Field(name, name, None, "")] + Literals(b));
  }

  /** A field naming anything but `input` or `history` parses but makes every call raise
      (an IndexError for a position, a KeyError otherwise) before the model is asked. */
  lemma FormatMissingVariable(a: string, name: string, b: string, input: string)
    requires PlainName(name) && Head(name) != "input" && Head(name) != "history"
    ensures Parse(Escape(a) + ("{" + name + "}" + Escape(b))).Success?
    ensures name != "stop" ==> Build(Escape(a) + ("{" + name + "}" + Escape(b))).Success?
    ensures Format(Escape(a) + ("{" + name + "}" + Escape(b)), input) ==
      Failure(if Positional(name) then IndexOutOfRange else KeyError(Head(name)))
  {
    FormatOneField(a, name, b, input);
    if name != "stop" {
      BuildOneField(a, name, b);
    }
  }

  /** A `{` at the very end of the template makes building it raise a ValueError. */
  lemma ParseLoneOpen(a: string)
    ensures Parse(Escape(a) + "{").Failure?
  {
    FormatAfterEscaped(a, "{", "");
  }

  /** A `}` that is not doubled makes building the template raise a ValueError. */
  lemma ParseLoneClose(a: string, t: string)
    requires t == [] || t[0] != '}'
    ensures Parse(Escape(a) + ("}" + t)).Failure?
  {
    FormatAfterEscaped(a, "}" + t, "");
  }

  lemma {:induction false} SpecEndUnclosed(t: string, i: nat, depth: nat)
    requires i <= |t| && depth > 0
    requires forall j :: i <= j < |t| ==> t[j] != '}'
    ensures SpecEnd(t, i, depth).Failure?
    decreases |t| - i
  {
    if i < |t| {
      SpecEndUnclosed(t, i + 1, if t[i] == '{' then depth + 1 else depth);
    }
  }

  /** A field opened by `{` and never closed makes building the template raise a
      ValueError. */
  lemma ParseUnclosed(a: string, t: string)
    requires '}' !in t && (t == [] || t[0] != '{')
    ensures Parse(Escape(a) + ("{" + t)).Failure?
  {
    FormatAfterEscaped(a, "{" + t, "");
    if t != [] {
      assert ("{" + t)[1..] == t;
      forall j | 0 <= j < |t| ensures t[j] != '}' {
        assert t[j] in t;
      }
      match NameEnd(t, 0)
      case Failure(_) =>
      case Success(k) =>
        SpecEndUnclosed(t, k + 1, 1);
        if k + 3 <= |t| {
          SpecEndUnclosed(t, k + 3, 1);
        }
    }
  }

  /** A system prompt without braces builds, into one literal per character. */
  lemma BuildPlainText(s: string)
    requires '{' !in s && '}' !in s
    ensures Build(s) == Success(Literals(s))
  {
    LiteralsAt(s);
    EscapeBraceFree(s);
    ParseAfterEscaped(s, []);
    assert Escape(s) + [] == s;
    assert Literals(s) + [] == Literals(s);
  }

  lemma ParseStopField(b: string)
    ensures Parse("{stop}" + Escape(b)).Success?
    ensures Parse("{stop}" + Escape(b)).value[0] == Field("stop", "stop", None, "")
  {
    ParseAfterEscaped(b, []);
    assert Escape(b) + [] == Escape(b);
    assert PlainName("stop");
    assert "{" + "stop" + "}" + Escape(b) == "{stop}" + Escape(b);
    ParsePlainField("stop", Escape(b));
  }

  /** A `{stop}` field parses, but LangChain refuses to build the template with it. */
  lemma BuildRefusesStop(a: string, b: string)
    ensures Parse(Escape(a) + ("{stop}" + Escape(b))).Success?
    ensures Build(Escape(a) + ("{stop}" + Escape(b))) == Failure(StopReserved)
  {
    var t := "{stop}" + Escape(b);
    ParseStopField(b);
    ParseAfterEscaped(a, t);
    var ps := Parse(Escape(a) + t).value;
    assert ps[|a|] == Field("stop", "stop", None, "");
  }
}
