/** The JSON Lines export: one JSON object a row, each cell a native JSON value if its text allows. */
module JsonLines {
  import opened Wrappers
  import opened Text
  import opened Encoding
  import opened Whitespace
  import Core
  import opened Json

  // ----- Column types -----

  datatype TypeClass = BooleanType | IntegerType | FloatType | StringType

  predicate Contains(s: string, word: string) {
    word <= s || (s != [] && Contains(s[1..], word))
  }

  /** The type inside one wrapper, if there is a wrapper around it. */
  function Inside(t: string): Option<string> {
    var n := if "nullable(" <= t then 9 else if "lowcardinality(" <= t then 15 else 0;
    if n > 0 && |t| > n && Last(t) == ')' then Some(t[n..|t| - 1]) else None
  }

  function Unwrapped(t: string): string
    decreases |t|
  {
    match Inside(t)
    case None => t
    case Some(inner) => Unwrapped(Trim(inner))
  }

  method UnwrapWrappers(typeName: string) returns (t: string)
    ensures t == Unwrapped(typeName)
  {
    t := typeName;
    while true
      invariant Unwrapped(t) == Unwrapped(typeName)
      decreases |t|
    {
      var unwrapped := Inside(t);
      match unwrapped {
        case Some(inner) => t := Trim(inner);
        case None => return t;
      }
    }
  }

  predicate IsFloat(t: string) {
    t in ["real", "double", "double precision"] || "float" <= t
  }

  const INTEGER_NAMES: seq<string> := [
    "int2", "int4", "int8", "smallint", "integer", "int", "bigint",
    "serial", "serial2", "serial4", "serial8", "smallserial", "bigserial", "oid"
  ]

  /** A known name, or `int` or `uint` with nothing but digits after it. */
  predicate IsInteger(t: string) {
    || t in INTEGER_NAMES
    || ("int" <= t && |t| > 3 && AllDigits(t[3..]))
    || ("uint" <= t && |t| > 4 && AllDigits(t[4..]))
  }

  function ClassOf(t: string): TypeClass {
    if t == "bool" || t == "boolean" then BooleanType
    else if Contains(t, "decimal") || Contains(t, "numeric") then StringType
    else if IsFloat(t) then FloatType
    else if IsInteger(t) then IntegerType
    else StringType
  }

  function Class(typeName: string): TypeClass {
    ClassOf(Unwrapped(Lower(Trim(typeName))))
  }

  method Classify(typeName: string) returns (c: TypeClass)
    ensures c == Class(typeName)
  {
    var t := UnwrapWrappers(Lower(Trim(typeName)));
    c := ClassOf(t);
  }

  /** A wrapper in any letter case and to any depth changes nothing about how a column is rendered. */
  lemma WrapperTransparent(wrapper: string, inner: string)
    requires Lower(wrapper) == "nullable(" || Lower(wrapper) == "lowcardinality("
    ensures Class(wrapper + inner + ")") == Class(inner)
  {
    hide IsWhitespace, ClassOf, Trim;
    var t := wrapper + inner + ")";
    assert wrapper[0] != ')' && LowerChar(wrapper[0]) == Lower(wrapper)[0];
    NotBlank(wrapper[0]);
    NotBlank(')');
    TrimTight(t);
    LowerAppend(wrapper + inner, ")");
    LowerAppend(wrapper, inner);
    assert Lower(")") == ")";
    var w := Lower(wrapper);
    var lowered := w + Lower(inner) + ")";
    assert w <= lowered;
    WrapperWords(lowered, w);
    assert lowered[|w|..|lowered| - 1] == Lower(inner);
    TrimLower(inner);
  }

  lemma NotBlank(c: char)
    requires 'a' <= LowerChar(c) <= 'z' || c == ')'
    ensures !IsWhitespace(c)
  {
  }

  lemma WrapperWords(t: string, w: string)
    requires (w == "nullable(" || w == "lowcardinality(") && w <= t && |t| > |w| && Last(t) == ')'
    ensures Inside(t) == Some(t[|w|..|t| - 1])
  {
    assert t[0] == w[0];
  }

  // ----- Cells -----

  /** A float as text: it starts like a number and has a point or an exponent. */
  predicate IsFloatText(s: string) {
    s != [] && (IsDigit(s[0]) || s[0] == '-') && Numeric(s) && exists i :: 0 <= i < |s| && s[i] in ".e"
  }

  predicate Numeric(s: string) {
    forall i :: 0 <= i < |s| ==> NumberChar(s[i])
  }

  predicate NumberChar(c: char) {
    IsDigit(c) || c in "+-.eE"
  }

  type FloatText = s: string | IsFloatText(s) witness FloatExample()

  function FloatExample(): (s: string)
    ensures IsFloatText(s)
  {
    var s := "0.0";
    assert s[1] in ".e";
    s
  }

  /** The whole number a numeral stands for, however large: an optional sign and some digits. */
  function NumeralValue(text: string): Option<int> {
    var signed := text != [] && (text[0] == '+' || text[0] == '-');
    var digits := if signed then text[1..] else text;
    if digits == [] || !AllDigits(digits) then None
    else
      var n: int := DigitsValue(digits);
      Some(if text[0] == '-' then -n else n)
  }

  /** Reading a signed 64-bit number. */
  function ParseI64(s: string): (r: Option<int>)
    ensures r.Some? ==> I64_MIN <= r.value <= I64_MAX
  {
    match NumeralValue(s)
    case Some(n) => if I64_MIN <= n <= I64_MAX then Some(n) else None
    case None => None
  }

  function ParseBool(text: string): Option<bool> {
    var t := Lower(Trim(text));
    if t in ["t", "true", "1", "yes", "y"] then Some(true)
    else if t in ["f", "false", "0", "no", "n"] then Some(false)
    else None
  }

  /** Text coerced by class; `float` is the float printer, None for text that is no finite float. */
  function Coerced(text: string, c: TypeClass, float: string -> Option<FloatText>): Json {
    match c
    case BooleanType => (match ParseBool(text) case Some(b) => Bool(b) case None => String(text))
    case IntegerType => (
      match ParseI64(text)
      case Some(n) => Integer(n)
      case None => match ParseU64(text) case Some(n) => Integer(n) case None => String(text))
    case FloatType => (match float(text) case Some(token) => Real(Float(token)) case None => String(text))
    case StringType => String(text)
  }

  function CellJson(cell: Core.CellValue, typeName: string, float: string -> Option<FloatText>): Json {
    match cell
    case Null => Json.Null
    case Bytes(bytes) => String("\\x" + HexOf(bytes))
    case Text(text) => Coerced(text, Class(typeName), float)
  }

  method HexEncode(bytes: seq<Byte>) returns (hex: string)
    ensures hex == "\\x" + HexOf(bytes)
  {
    hex := "\\x";
    for i := 0 to |bytes|
      invariant hex + HexOf(bytes[i..]) == "\\x" + HexOf(bytes)
    {
      hex := hex + [HexDigit(bytes[i] / 16), HexDigit(bytes[i] % 16)];
      assert bytes[i..][1..] == bytes[i + 1..];
    }
    assert hex + [] == hex;
  }

  method CellToJson(cell: Core.CellValue, typeName: string, float: string -> Option<FloatText>) returns (v: Json)
    ensures v == CellJson(cell, typeName, float)
  {
    match cell {
      case Null => v := Json.Null;
      case Bytes(bytes) =>
        var hex := HexEncode(bytes);
        v := String(hex);
      case Text(text) =>
        var c := Classify(typeName);
        v := Coerced(text, c, float);
    }
  }

  /**
   * In an integer column a number is written exactly for the numerals from -2^63 to 2^64 - 1, with
   * the numeral's value; every other text stays as it is, as a string.
   */
  lemma IntegersExact(text: string, float: string -> Option<FloatText>)
    ensures var n := NumeralValue(text);
            Coerced(text, IntegerType, float) ==
            if n.Some? && -0x8000_0000_0000_0000 <= n.value <= 0xFFFF_FFFF_FFFF_FFFF then Integer(n.value) else String(text)
  {
    hide DigitsValue, AllDigits;
    if text != [] && text[0] == '-' {
      SignIsNoDigit(text);
    }
  }

  lemma SignIsNoDigit(text: string)
    requires text != [] && !IsDigit(text[0])
    ensures !AllDigits(text)
  {
  }

  /** Whatever the declared type, a written value says nothing the cell does not. */
  lemma CellFaithful(cell: Core.CellValue, typeName: string, float: string -> Option<FloatText>)
    ensures match CellJson(cell, typeName, float)
            case Null => cell == Core.Null
            case Bool(b) => cell.Text? && Lower(Trim(cell.text)) in if b then ["t", "true", "1", "yes", "y"] else ["f", "false", "0", "no", "n"]
            case Integer(n) => cell.Text? && NumeralValue(cell.text) == Some(n)
            case Real(f) => cell.Text? && float(cell.text) == Some(f.token)
            case String(s) => cell == Core.Text(s) || (cell.Bytes? && "\\x" <= s && UnHex(s[2..]) == Some(cell.bytes))
            case _ => false
  {
    hide Class, NumeralValue, Trim, Lower;
    match cell
    case Null =>
    case Bytes(bytes) =>
      UnHexHex(bytes);
      assert ("\\x" + HexOf(bytes))[2..] == HexOf(bytes);
    case Text(text) => IntegersExact(text, float);
  }

  lemma {:induction false} ContainsWord(s: string, word: string)
    requires Contains(s, word)
    ensures |s| >= |word|
  {
    if !(word <= s) {
      ContainsWord(s[1..], word);
    }
  }

  /** Decimals of any precision are never rounded: whatever wraps or qualifies the type, their text stays. */
  lemma DecimalsVerbatim(typeName: string, text: string, float: string -> Option<FloatText>)
    requires var t := Unwrapped(Lower(Trim(typeName))); Contains(t, "decimal") || Contains(t, "numeric")
    ensures CellJson(Core.Text(text), typeName, float) == String(text)
  {
    hide Contains, IsFloat, IsInteger, Unwrapped, Trim;
    var t := Unwrapped(Lower(Trim(typeName)));
    BooleanIsNoNumber();
  }

  lemma BooleanIsNoNumber()
    ensures !Contains("boolean", "decimal") && !Contains("boolean", "numeric")
    ensures !Contains("bool", "decimal") && !Contains("bool", "numeric")
  {
    assert "boolean"[0] == 'b' && "decimal"[0] == 'd' && "numeric"[0] == 'n';
    ShorterHasNot("boolean"[1..], "decimal");
    ShorterHasNot("boolean"[1..], "numeric");
    ShorterHasNot("bool", "decimal");
    ShorterHasNot("bool", "numeric");
  }

  lemma ShorterHasNot(s: string, word: string)
    requires |s| < |word|
    ensures !Contains(s, word)
  {
    if Contains(s, word) {
      ContainsWord(s, word);
    }
  }

  // ----- The declared types -----

  lemma {:induction false} ContainsLetter(s: string, word: string, c: char)
    requires Contains(s, word) && c in word
    ensures c in s
  {
    if word <= s {
      var i :| 0 <= i < |word| && word[i] == c;
      assert s[i] == c;
    } else {
      ContainsLetter(s[1..], word, c);
    }
  }

  predicate Wrapper(w: string) {
    Lower(w) == "nullable(" || Lower(w) == "lowcardinality("
  }

  /** No wrapper stands around the type. */
  predicate Unwrappable(t: string) {
    !(t != "" && Last(t) == ')' && ("nullable(" <= t || "lowcardinality(" <= t))
  }

  /** A declared type: a name in any letter case, inside some wrappers, with white space around any of these. */
  ghost predicate Declares(typeName: string, wrappers: seq<string>, name: string)
    decreases |wrappers|
  {
    if wrappers == [] then Trim(typeName) == name && Unwrappable(Lower(name))
    else
      && Wrapper(wrappers[0])
      && exists inner :: Trim(typeName) == wrappers[0] + inner + ")" && Declares(inner, wrappers[1..], name)
  }

  lemma ClassTrimmed(typeName: string)
    ensures Class(Trim(typeName)) == Class(typeName)
  {
    TrimTwice(typeName);
  }

  lemma {:induction false} DeclaredClass(typeName: string, wrappers: seq<string>, name: string)
    requires Declares(typeName, wrappers, name)
    ensures Class(typeName) == ClassOf(Lower(name))
    decreases |wrappers|
  {
    if wrappers == [] {
      hide ClassOf, Trim;
      assert Inside(Lower(name)) == None;
    } else {
      hide Class, ClassOf;
      var inner :| Trim(typeName) == wrappers[0] + inner + ")" && Declares(inner, wrappers[1..], name);
      ClassTrimmed(typeName);
      WrapperTransparent(wrappers[0], inner);
      DeclaredClass(inner, wrappers[1..], name);
    }
  }

  /** The word stands somewhere in the text. */
  predicate Within(t: string, word: string) {
    exists i :: 0 <= i <= |t| - |word| && word <= t[i..]
  }

  lemma {:induction false} ContainsWithin(t: string, word: string)
    requires word != ""
    ensures Contains(t, word) <==> Within(t, word)
  {
    if word <= t {
      assert t[0..] == t;
    } else if t != [] {
      ContainsWithin(t[1..], word);
      if Within(t[1..], word) {
        var i :| 0 <= i <= |t[1..]| - |word| && word <= t[1..][i..];
        assert t[i + 1..] == t[1..][i..];
      }
      if Within(t, word) {
        var i :| 0 <= i <= |t| - |word| && word <= t[i..];
        assert t[0..] == t;
        assert t[i..] == t[1..][i - 1..];
      }
    }
  }

  lemma NoDecimal(t: string)
    requires 'c' !in t || |t| < 7
    ensures !Contains(t, "decimal") && !Contains(t, "numeric")
  {
    assert "decimal"[2] == 'c' && "numeric"[6] == 'c';
    if Contains(t, "decimal") {
      ContainsLetter(t, "decimal", 'c');
      ContainsWord(t, "decimal");
    }
    if Contains(t, "numeric") {
      ContainsLetter(t, "numeric", 'c');
      ContainsWord(t, "numeric");
    }
  }

  predicate BooleanName(t: string) {
    t == "bool" || t == "boolean"
  }

  /** The integer types: fixed names, and `int` or `uint` with digits. */
  predicate IntegerName(t: string) {
    || t == "int2" || t == "int4" || t == "int8" || t == "smallint" || t == "integer" || t == "int" || t == "bigint"
    || t == "serial" || t == "serial2" || t == "serial4" || t == "serial8" || t == "smallserial" || t == "bigserial"
    || t == "oid"
    || ("int" <= t && |t| > 3 && AllDigits(t[3..]))
    || ("uint" <= t && |t| > 4 && AllDigits(t[4..]))
  }

  /** The floating-point types, but for one that names decimals. */
  predicate FloatName(t: string) {
    || t == "real" || t == "double" || t == "double precision"
    || ("float" <= t && !Within(t, "decimal") && !Within(t, "numeric"))
  }

  lemma NumberedName(prefix: string, t: string)
    requires prefix in ["int", "uint"] && prefix <= t && |t| > |prefix| && AllDigits(t[|prefix|..])
    ensures 'c' !in t && t[0] == prefix[0]
  {
    assert forall i :: |prefix| <= i < |t| ==> t[i] == t[|prefix|..][i - |prefix|];
    assert forall i :: 0 <= i < |prefix| ==> t[i] == prefix[i];
  }

  lemma ShortName(t: string)
    requires t in ["int2", "int4", "int8", "int", "bigint", "serial", "oid"]
    ensures |t| < 7 && t[0] in "ibso"
  {
  }

  lemma LongName(t: string)
    requires t in ["smallint", "integer", "serial2", "serial4", "serial8", "smallserial", "bigserial"]
    ensures 'c' !in t && t[0] in "ibs" && t[1] != 'o'
  {
  }

  lemma IntegerNameClass(t: string)
    requires IntegerName(t)
    ensures ClassOf(t) == IntegerType
  {
    if "int" <= t && |t| > 3 && AllDigits(t[3..]) {
      NumberedName("int", t);
    } else if "uint" <= t && |t| > 4 && AllDigits(t[4..]) {
      NumberedName("uint", t);
    } else if t in ["int2", "int4", "int8", "int", "bigint", "serial", "oid"] {
      ShortName(t);
    } else {
      LongName(t);
    }
    NoDecimal(t);
    FirstLetters(t);
    hide Contains;
  }

  lemma FirstLetters(t: string)
    ensures IsFloat(t) ==> t != "" && t[0] in "rdf"
    ensures BooleanName(t) ==> t[0] == 'b' && t[1] == 'o'
    ensures IntegerName(t) ==> t[0] !in "rdf" && !BooleanName(t)
  {
  }

  lemma FloatNameClass(t: string)
    requires IsFloat(t)
    ensures ClassOf(t) == if FloatName(t) then FloatType else StringType
  {
    ContainsWithin(t, "decimal");
    ContainsWithin(t, "numeric");
    FirstLetters(t);
    if t == "double precision" {
      PrecisionIsNoDecimal();
    } else if t == "real" || t == "double" {
      NoDecimal(t);
    }
    hide Contains, Within;
  }

  lemma PrecisionIsNoDecimal()
    ensures !Contains("double precision", "decimal") && !Contains("double precision", "numeric")
  {
    var t := "double precision";
    assert 'm' !in t && "decimal"[4] == 'm' && "numeric"[2] == 'm';
    if Contains(t, "decimal") {
      ContainsLetter(t, "decimal", 'm');
    }
    if Contains(t, "numeric") {
      ContainsLetter(t, "numeric", 'm');
    }
  }

  lemma OtherNameClass(t: string)
    requires !BooleanName(t) && !IntegerName(t) && !IsFloat(t)
    ensures ClassOf(t) == StringType
  {
    hide Contains;
  }

  // ----- How each declared type is rendered -----

  /**
   * In a column of an integer type, in any letter case and with any wrappers: a numeral in range is
   * written as its number, and any other text as a string.
   */
  lemma IntegerColumns(typeName: string, wrappers: seq<string>, name: string, text: string,
                       float: string -> Option<FloatText>)
    requires Declares(typeName, wrappers, name) && IntegerName(Lower(name))
    ensures var n := NumeralValue(text);
            CellJson(Core.Text(text), typeName, float) ==
            if n.Some? && -0x8000_0000_0000_0000 <= n.value <= 0xFFFF_FFFF_FFFF_FFFF then Integer(n.value) else String(text)
  {
    hide IntegerName, ClassOf, NumeralValue, Class, Lower, Declares;
    DeclaredClass(typeName, wrappers, name);
    IntegerNameClass(Lower(name));
    IntegersExact(text, float);
  }

  /** In a boolean column the ten spellings of a truth value are written as one, and other text as a string. */
  lemma BooleanColumns(typeName: string, wrappers: seq<string>, name: string, text: string,
                       float: string -> Option<FloatText>)
    requires Declares(typeName, wrappers, name) && BooleanName(Lower(name))
    ensures var t := Lower(Trim(text));
            CellJson(Core.Text(text), typeName, float) ==
            if t == "t" || t == "true" || t == "1" || t == "yes" || t == "y" then Bool(true)
            else if t == "f" || t == "false" || t == "0" || t == "no" || t == "n" then Bool(false)
            else String(text)
  {
    hide Class, Trim, Lower, Declares;
    DeclaredClass(typeName, wrappers, name);
  }

  /** In a floating-point column a finite float is written as one, and any other text as a string. */
  lemma FloatColumns(typeName: string, wrappers: seq<string>, name: string, text: string,
                     float: string -> Option<FloatText>)
    requires Declares(typeName, wrappers, name) && FloatName(Lower(name))
    ensures CellJson(Core.Text(text), typeName, float) ==
            if float(text).Some? then Real(Float(float(text).value)) else String(text)
  {
    FloatNameClass(Lower(name));
    hide FloatName, ClassOf, Class, Lower, Declares;
    DeclaredClass(typeName, wrappers, name);
  }

  /** In a column of any other type, decimals among them, the text stays as it is. */
  lemma OtherColumns(typeName: string, wrappers: seq<string>, name: string, text: string,
                     float: string -> Option<FloatText>)
    requires Declares(typeName, wrappers, name)
    requires !BooleanName(Lower(name)) && !IntegerName(Lower(name)) && !FloatName(Lower(name))
    ensures CellJson(Core.Text(text), typeName, float) == String(text)
  {
    if IsFloat(Lower(name)) {
      FloatNameClass(Lower(name));
    } else {
      OtherNameClass(Lower(name));
    }
    hide FloatName, IntegerName, BooleanName, IsFloat, ClassOf, Class, Lower, Declares;
    DeclaredClass(typeName, wrappers, name);
  }
}
