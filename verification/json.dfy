/** JSON-like values, as the auth responses and request parameters hold
    them, with the parts of Python's value semantics the auth code relies
    on: truthiness, `str()`, `float()`, ordered comparison and
    `json.dumps`. */
module Json {
  import opened Wrappers
  import opened Text

  datatype Value =
    | Null
    | Bool(b: bool)
    | Int(i: int)
    | Float(r: real)
    | Str(s: string)
    | List(items: seq<Value>)
    | Object(fields: map<string, Value>)

  type JsonObject = map<string, Value>

  /** Python truthiness. */
  predicate Truthy(v: Value)
  {
    match v
    case Null => false
    case Bool(b) => b
    case Int(i) => i != 0
    case Float(r) => r != 0.0
    case Str(s) => |s| > 0
    case List(items) => |items| > 0
    case Object(m) => |m| > 0
  }

  /** `not response` is false exactly for a present, non-empty object. */
  predicate Present(o: Option<JsonObject>)
  {
    o.Some? && |o.value| > 0
  }

  /** The number a value compares as: booleans, integers and floats;
      comparing anything else with a number raises `TypeError`. */
  function Numeric(v: Value): (r: Option<real>)
    ensures r.Some? <==> v.Bool? || v.Int? || v.Float?
  {
    match v
    case Bool(b) => Some(if b then 1.0 else 0.0)
    case Int(i) => Some(i as real)
    case Float(r) => Some(r)
    case _ => None
  }

  // ---------------------------------------------------------------------
  // float()
  // ---------------------------------------------------------------------

  /** The characters `float()` strips around a string: the ASCII
      characters for which `str.isspace` holds. */
  predicate IsSpace(c: char)
  {
    9 <= c as int <= 13 || 28 <= c as int <= 32
  }

  function TrimStart(s: string): (r: string)
    ensures |r| > 0 ==> !IsSpace(r[0])
    decreases |s|
  {
    if |s| > 0 && IsSpace(s[0]) then TrimStart(s[1..]) else s
  }

  function TrimEnd(s: string): (r: string)
    ensures |r| > 0 ==> !IsSpace(r[|r| - 1])
    decreases |s|
  {
    if |s| > 0 && IsSpace(s[|s| - 1]) then TrimEnd(s[..|s| - 1]) else s
  }

  /** `s.strip()`. */
  function Trim(s: string): string
  {
    TrimEnd(TrimStart(s))
  }

  /** `m` times ten to the power `e`. */
  function Scale(m: real, e: int): real
    decreases if e >= 0 then e else -e
  {
    if e == 0 then m else if e > 0 then 10.0 * Scale(m, e - 1) else Scale(m, e + 1) / 10.0
  }

  /** Decimal digits with at most one point and at least one digit:
      `12`, `12.5`, `12.` and `.5`. */
  function ParseDecimal(s: string): Option<real>
  {
    var parts := Split(s, '.');
    if |parts| == 1 then
      match ParseNat(s)
      case Some(n) => Some(n as real)
      case None => None
    else if |parts| == 2 && |parts[0]| + |parts[1]| > 0 then
      var whole := if |parts[0]| == 0 then Some(0) else ParseNat(parts[0]);
      var fraction := if |parts[1]| == 0 then Some(0) else ParseNat(parts[1]);
      if whole.Some? && fraction.Some? then Some(whole.value as real + Scale(fraction.value as real, -|parts[1]|))
      else None
    else None
  }

  /** An exponent: digits, optionally signed. */
  function ParseExponent(s: string): Option<int>
  {
    if |s| > 0 && (s[0] == '+' || s[0] == '-') then
      match ParseNat(s[1..])
      case Some(n) => Some(if s[0] == '-' then -(n as int) else n as int)
      case None => None
    else
      match ParseNat(s)
      case Some(n) => Some(n)
      case None => None
  }

  /** A decimal with an optional exponent after `e` or `E`. */
  function ParseUnsigned(s: string): Option<real>
  {
    var parts := Split(ReplaceChar(s, 'E', 'e'), 'e');
    if |parts| == 1 then ParseDecimal(parts[0])
    else if |parts| == 2 then
      match ParseExponent(parts[1])
      case None => None
      case Some(e) =>
        match ParseDecimal(parts[0])
        case None => None
        case Some(m) => Some(Scale(m, e))
    else None
  }

  /** An optional sign, then an unsigned decimal. */
  function ParseSigned(t: string): Option<real>
  {
    if |t| > 0 && t[0] == '-' then
      match ParseUnsigned(t[1..])
      case Some(x) => Some(-x)
      case None => None
    else if |t| > 0 && t[0] == '+' then ParseUnsigned(t[1..])
    else ParseUnsigned(t)
  }

  /** `float(s)` of a string: the whitespace around it is stripped, and
      what is left is an optional sign and a decimal in positional or
      exponent notation. */
  function ParseFloat(s: string): Option<real>
  {
    ParseSigned(Trim(s))
  }

  /** `float(v)`: numbers as they are, strings as `ParseFloat` reads
      them, and nothing else. */
  function FloatOf(v: Value): (r: Option<real>)
    ensures Numeric(v).Some? ==> r == Numeric(v)
    ensures v.Str? && ParseNat(v.s).Some? ==> r == Some(ParseNat(v.s).value as real)
    ensures !v.Str? && Numeric(v).None? ==> r.None?
  {
    match v
    case Str(s) => ParseFloatDigits(s); ParseFloat(s)
    case _ => Numeric(v)
  }

  /** A string without whitespace is its own strip. */
  lemma TrimNoSpace(s: string)
    requires forall i :: 0 <= i < |s| ==> !IsSpace(s[i])
    ensures Trim(s) == s
  {
    assert TrimStart(s) == s;
  }

  /** Without a sign or whitespace, `ParseFloat` is `ParseUnsigned`. */
  lemma ParseFloatUnsigned(s: string)
    requires |s| > 0 && s[0] != '-' && s[0] != '+'
    requires forall i :: 0 <= i < |s| ==> !IsSpace(s[i])
    ensures ParseFloat(s) == ParseUnsigned(s)
  {
    TrimNoSpace(s);
  }

  /** Without an exponent, `ParseUnsigned` is `ParseDecimal`. */
  lemma ParseUnsignedPlain(s: string)
    requires 'e' !in s && 'E' !in s
    ensures ParseUnsigned(s) == ParseDecimal(s)
  {
    assert ReplaceChar(s, 'E', 'e') == s;
    SplitWithoutSeparator(s, 'e');
  }

  lemma ParseDecimalDigits(s: string)
    requires ParseNat(s).Some?
    ensures ParseDecimal(s) == Some(ParseNat(s).value as real)
  {
    assert forall i :: 0 <= i < |s| ==> IsDigit(s[i]);
    assert '.' !in s;
    SplitWithoutSeparator(s, '.');
  }

  /** A string of decimal digits reads as the number it spells. */
  lemma ParseFloatDigits(s: string)
    ensures ParseNat(s).Some? ==> ParseFloat(s) == Some(ParseNat(s).value as real)
  {
    if ParseNat(s).Some? {
      assert forall i :: 0 <= i < |s| ==> IsDigit(s[i]);
      ParseFloatUnsigned(s);
      assert 'e' !in s && 'E' !in s;
      ParseUnsignedPlain(s);
      ParseDecimalDigits(s);
    }
  }

  lemma ParseFloatMinus(t: string)
    requires |t| > 0 && t[0] != '-' && t[0] != '+'
    requires forall i :: 0 <= i < |t| ==> !IsSpace(t[i])
    ensures ParseFloat("-" + t) == match ParseUnsigned(t) case Some(x) => Some(-x) case None => None
  {
    TrimNoSpace("-" + t);
    assert ("-" + t)[1..] == t;
  }

  lemma ParseFloatPlus(t: string)
    requires |t| > 0 && t[0] != '-' && t[0] != '+'
    requires forall i :: 0 <= i < |t| ==> !IsSpace(t[i])
    ensures ParseFloat("+" + t) == ParseUnsigned(t)
  {
    TrimNoSpace("+" + t);
    assert ("+" + t)[1..] == t;
  }

  /** A sign in front of a number without whitespace negates it or keeps
      it. */
  lemma ParseFloatSign(t: string)
    requires |t| > 0 && t[0] != '-' && t[0] != '+'
    requires forall i :: 0 <= i < |t| ==> !IsSpace(t[i])
    ensures ParseFloat("-" + t) == match ParseFloat(t) case Some(x) => Some(-x) case None => None
    ensures ParseFloat("+" + t) == ParseFloat(t)
  {
    var u := ParseUnsigned(t);
    assert ParseFloat(t) == u by {
      ParseFloatUnsigned(t);
    }
    assert ParseFloat("-" + t) == (match u case Some(x) => Some(-x) case None => None) by {
      ParseFloatMinus(t);
    }
    assert ParseFloat("+" + t) == u by {
      ParseFloatPlus(t);
    }
  }

  lemma {:induction false} TrimStartSpaces(w: string, x: string)
    requires forall i :: 0 <= i < |w| ==> IsSpace(w[i])
    ensures TrimStart(w + x) == TrimStart(x)
    decreases |w|
  {
    if |w| > 0 {
      assert (w + x)[1..] == w[1..] + x;
      TrimStartSpaces(w[1..], x);
    } else {
      assert w + x == x;
    }
  }

  lemma {:induction false} TrimEndSpaces(x: string, w: string)
    requires forall i :: 0 <= i < |w| ==> IsSpace(w[i])
    ensures TrimEnd(x + w) == TrimEnd(x)
    decreases |w|
  {
    if |w| > 0 {
      assert (x + w)[..|x + w| - 1] == x + w[..|w| - 1];
      TrimEndSpaces(x, w[..|w| - 1]);
    } else {
      assert x + w == x;
    }
  }

  lemma {:induction false} TrimStartAppend(x: string, w: string)
    requires forall i :: 0 <= i < |w| ==> IsSpace(w[i])
    ensures TrimStart(x + w) == if |TrimStart(x)| == 0 then [] else TrimStart(x) + w
    decreases |x|
  {
    if |x| == 0 {
      TrimStartSpaces(w, []);
      assert x + w == w + [];
    } else if IsSpace(x[0]) {
      assert (x + w)[1..] == x[1..] + w;
      TrimStartAppend(x[1..], w);
    }
  }

  /** Whitespace around a string does not change what it reads as. */
  lemma ParseFloatIgnoresSpaces(s: string, before: nat, after: nat)
    ensures ParseFloat(Spaces(before) + s + Spaces(after)) == ParseFloat(s)
  {
    var x := Spaces(before) + s + Spaces(after);
    assert Spaces(before) + s + Spaces(after) == Spaces(before) + (s + Spaces(after));
    TrimStartSpaces(Spaces(before), s + Spaces(after));
    TrimStartAppend(s, Spaces(after));
    if |TrimStart(s)| > 0 {
      TrimEndSpaces(TrimStart(s), Spaces(after));
    }
    assert Trim(x) == Trim(s);
    assert ParseFloat(x) == ParseSigned(Trim(x));
  }

  lemma ParseNat3600()
    ensures ParseNat("3600") == Some(3600)
  {
    assert "36"[..1] == "3";
    assert ParseNat("36") == Some(36);
    assert "360"[..2] == "36";
    assert ParseNat("360") == Some(360);
    assert "3600"[..3] == "360";
  }

  lemma FloatExampleFraction()
    ensures ParseFloat("3600.5") == Some(3600.5)
  {
    ParseFloatUnsigned("3600.5");
    ParseUnsignedPlain("3600.5");
    assert "3600.5" == "3600" + ['.'] + "5";
    SplitPair("3600", '.', "5");
    ParseNat3600();
    assert Scale(5.0, -1) == 0.5;
  }

  lemma FloatExampleExponent()
    ensures ParseFloat("1e3") == Some(1000.0)
  {
    ParseFloatUnsigned("1e3");
    assert ReplaceChar("1e3", 'E', 'e') == "1e3";
    assert "1e3" == "1" + ['e'] + "3";
    SplitPair("1", 'e', "3");
    ParseDecimalDigits("1");
    assert ParseExponent("3") == Some(3);
    assert Scale(1.0, 1) == 10.0 && Scale(1.0, 2) == 100.0;
  }

  lemma FloatExampleWord()
    ensures ParseFloat("abc") == None
  {
    ParseFloatUnsigned("abc");
    ParseUnsignedPlain("abc");
    SplitWithoutSeparator("abc", '.');
  }

  lemma FloatExampleSigned()
    ensures ParseFloat("-1") == Some(-1.0)
  {
    ParseFloatSign("1");
    ParseFloatDigits("1");
    assert "-" + "1" == "-1";
  }

  lemma FloatExampleSpaced()
    ensures ParseFloat(" 7 ") == Some(7.0)
  {
    ParseFloatIgnoresSpaces("7", 1, 1);
    assert Spaces(1) + "7" + Spaces(1) == " 7 ";
    ParseFloatDigits("7");
  }

  /** What `float()` makes of the `expires_in` texts a token endpoint may
      send: a fraction, a sign, surrounding whitespace and an exponent are
      read; a word is not a number. */
  lemma FloatExamples()
    ensures FloatOf(Str("3600")) == Some(3600.0)
    ensures FloatOf(Str("3600.5")) == Some(3600.5)
    ensures FloatOf(Str("-1")) == Some(-1.0)
    ensures FloatOf(Str(" 7 ")) == Some(7.0)
    ensures FloatOf(Str("1e3")) == Some(1000.0)
    ensures FloatOf(Str("abc")) == None
  {
    ParseNat3600();
    FloatExampleFraction();
    FloatExampleSigned();
    FloatExampleSpaced();
    FloatExampleExponent();
    FloatExampleWord();
  }

  /** The text of a float: exact for whole numbers (`3600.0`); other floats
      render as their whole part followed by `.…`. */
  function FloatText(r: real): string
  {
    IntText(r.Floor) + (if r == r.Floor as real then ".0" else ".…")
  }

  /** `str(v)`. A non-empty nested object renders as `{…}`. */
  function StrOf(v: Value): string
    decreases v, 0
  {
    match v
    case Null => "None"
    case Bool(b) => if b then "True" else "False"
    case Int(i) => IntText(i)
    case Float(r) => FloatText(r)
    case Str(s) => s
    case List(items) => "[" + Join(", ", seq(|items|, i requires 0 <= i < |items| => Repr(items[i]))) + "]"
    case Object(m) => if |m| == 0 then "{}" else "{…}"
  }

  /** `repr(v)` inside a list: strings are quoted. */
  function Repr(v: Value): string
    decreases v, 1
  {
    match v
    case Str(s) => "'" + s + "'"
    case _ => StrOf(v)
  }

  /** `json.dumps(v)`. A non-empty nested object renders as `{…}`. */
  function Dumps(v: Value): string
  {
    match v
    case Null => "null"
    case Bool(b) => if b then "true" else "false"
    case Int(i) => IntText(i)
    case Float(r) => FloatText(r)
    case Str(s) => "\"" + s + "\""
    case List(items) => "[" + Join(", ", seq(|items|, i requires 0 <= i < |items| => Dumps(items[i]))) + "]"
    case Object(m) => if |m| == 0 then "{}" else "{…}"
  }

  lemma StrOfStr(s: string)
    ensures StrOf(Str(s)) == s
  {
  }

  lemma DumpsScalars()
    ensures Dumps(Bool(true)) == "true" && Dumps(Bool(false)) == "false" && Dumps(Null) == "null"
  {
  }
}
