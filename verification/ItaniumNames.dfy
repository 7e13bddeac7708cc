/** Reading nested names that were mangled by the rules of the Itanium C++ ABI (section 5.1), just
    far enough to tell the names apart from template arguments. */
module ItaniumNames {
  import opened Wrappers

  // ----- What the regular expressions match ----------------------------------------------------

  predicate IsDigit(c: char) {
    '0' <= c <= '9'
  }

  predicate IsCode(c: char) {
    IsDigit(c) || 'A' <= c <= 'Z'
  }

  predicate IsQualifier(c: char) {
    c == 'r' || c == 'V' || c == 'K' || c == 'R' || c == 'O'
  }

  /** How many characters from the start are of a kind. */
  function Span(s: string, p: char -> bool): (n: nat)
    ensures n <= |s| && (forall i :: 0 <= i < n ==> p(s[i])) && (n < |s| ==> !p(s[n]))
  {
    if s == "" || !p(s[0]) then 0 else 1 + Span(s[1..], p)
  }

  /** What .* matches: all up to the end of the line. */
  function Line(s: string): string {
    s[..Span(s, c => c != '\n')]
  }

  /** (\d+)(.+) gives back its last digit if nothing else is left for the second group. */
  function MatchNumber(s: string): (m: Option<(string, string)>)
    ensures m.Some? ==> m.value.0 != "" && |m.value.0| + |m.value.1| <= |s| && forall c :: c in m.value.0 ==> IsDigit(c)
  {
    var d := Span(s, IsDigit);
    if d > 0 && Line(s[d..]) != "" then Some((s[..d], Line(s[d..])))
    else if d > 1 then Some((s[..d - 1], s[d - 1..d]))
    else None
  }

  /** ([CD][123])(.+) */
  function MatchStructor(s: string): (m: Option<(string, string)>)
    ensures m.Some? ==> m.value.0 != "" && |m.value.0| + |m.value.1| <= |s|
  {
    if |s| >= 2 && (s[0] == 'C' || s[0] == 'D') && '1' <= s[1] <= '3' && Line(s[2..]) != "" then Some((s[..2], Line(s[2..]))) else None
  }

  /** The last place before n where a line goes on. */
  function LastInLine(s: string, n: nat): (k: nat)
    requires n <= |s|
    ensures k <= n && (k > 0 ==> k < n && s[k] != '\n')
  {
    if n <= 1 then 0 else if s[n - 1] != '\n' then n - 1 else LastInLine(s, n - 1)
  }

  /** ([^E]+)(.+) */
  function MatchOperator(s: string): (m: Option<(string, string)>)
    ensures m.Some? ==> m.value.0 != "" && |m.value.0| + |m.value.1| <= |s|
  {
    var e := Span(s, c => c != 'E');
    var k := if e < |s| then e else LastInLine(s, e);
    if k > 0 then Some((s[..k], Line(s[k..]))) else None
  }

  /** S[A-Z0-9]*_(.+) */
  function MatchSubstitution(s: string): (m: Option<string>)
    ensures m.Some? ==> |m.value| < |s|
  {
    if s == "" || s[0] != 'S' then None
    else
      var k := 1 + Span(s[1..], IsCode);
      if k < |s| && s[k] == '_' && Line(s[k + 1..]) != "" then Some(Line(s[k + 1..])) else None
  }

  /** [rVKRO]*(.+) */
  function SkipQualifiers(s: string): (r: string)
    ensures |r| <= |s|
  {
    var q := Span(s, IsQualifier);
    if Line(s[q..]) != "" then Line(s[q..]) else if q > 0 then s[q - 1..q] else s
  }

  function ToInt(digits: string): nat
    requires forall c :: c in digits ==> IsDigit(c)
  {
    if digits == "" then 0
    else
      assert digits[|digits| - 1] in digits && IsDigit(digits[|digits| - 1]);
      10 * ToInt(digits[..|digits| - 1]) + (digits[|digits| - 1] as int - '0' as int)
  }

  function Take(s: string, n: nat): string {
    if n <= |s| then s[..n] else s
  }

  function Drop(s: string, n: nat): (r: string)
    ensures |r| <= |s|
  {
    if n <= |s| then s[n..] else ""
  }

  // ----- What the parser reads ------------------------------------------------------------------------

  function ParseName(s: string): (r: (Option<string>, string))
    ensures r.0.Some? ==> r.0.value != "" && |r.1| < |s|
  {
    match MatchNumber(s)
    case Some(m) => (Some(m.0 + Take(m.1, ToInt(m.0))), Drop(m.1, ToInt(m.0)))
    case None =>
      match MatchStructor(s)
      case Some(m) => (Some(m.0), m.1)
      case None =>
        match MatchOperator(s)
        case Some(m) => (Some(m.0), m.1)
        case None => (None, s)
  }

  /** The rest of the string, None, or the exception for names that are too complicated. */
  datatype Skipped = Rest(rest: string) | NoEnd | TooComplexName

  type Parts = seq<(string, bool)>

  datatype Parsed = Name(parts: Parts, rest: string) | NoName | TooComplex

  /** What follows a template argument list that starts before s. */
  function SkipArgs(s: string): (r: Skipped)
    ensures r.Rest? ==> |r.rest| < |s|
    decreases |s|, 1
  {
    if s == "" then NoEnd
    else if MatchNumber(s).Some? then SkipArgs(Drop(MatchNumber(s).value.1, ToInt(MatchNumber(s).value.0)))
    else if MatchSubstitution(s).Some? then SkipArgs(MatchSubstitution(s).value)
    else if s[0] == 'I' then
      match SkipArgs(s[1..])
      case Rest(r) => SkipArgs(r)
      case other => other
    else if s[0] == 'N' then
      match ParseNested(s)
      case Name(_, r) => SkipArgs(r)
      case NoName => NoEnd
      case TooComplex => TooComplexName
    else if s[0] == 'L' || s[0] == 'X' then TooComplexName
    else if s[0] == 'E' then Rest(s[1..])
    else SkipArgs(s[1..])
  }

  function AfterPrefix(s: string): (r: string)
    requires s != "" && s[0] == 'N'
    ensures |r| < |s|
  {
    var m := MatchSubstitution(s[1..]);
    SkipQualifiers(if m.Some? then m.value else s[1..])
  }

  function ParseNested(s: string): (r: Parsed)
    requires s != "" && s[0] == 'N'
    ensures r.Name? ==> |r.rest| < |s|
    decreases |s|, 0
  {
    ParseParts(AfterPrefix(s), [])
  }

  function ParseParts(s: string, before: Parts): (r: Parsed)
    ensures r.Name? ==> |r.rest| < |s|
    decreases |s|, 1
  {
    if s == "" then NoName
    else if s[0] == 'E' then Name(before, s[1..])
    else
      var (name, rest) := ParseName(s);
      if name.None? then NoName
      else if rest != "" && rest[0] == 'I' then
        match SkipArgs(rest[1..])
        case Rest(r) => ParseParts(r, before + [(name.value, true)])
        case NoEnd => NoName
        case TooComplexName => TooComplex
      else ParseParts(rest, before + [(name.value, false)])
  }

  // ----- The parser ---------------------------------------------------------------------------------------

  method SkipItaniumTemplate(arg: string) returns (result: Skipped)
    requires arg != "" && arg[0] == 'I'
    ensures result == SkipArgs(arg[1..])
    ensures result.Rest? ==> |result.rest| < |arg| - 1
    decreases |arg|, 0
  {
    var tmp := arg[1..];
    while tmp != ""
      invariant |tmp| < |arg| && SkipArgs(tmp) == SkipArgs(arg[1..])
      decreases |tmp|
    {
      var number := MatchNumber(tmp);
      if number.Some? {
        var n := ToInt(number.value.0);
        tmp := Drop(number.value.1, n);
        continue;
      }
      var substitution := MatchSubstitution(tmp);
      if substitution.Some? {
        tmp := substitution.value;
      } else if tmp[0] == 'I' {
        var inner := SkipItaniumTemplate(tmp);
        if inner.TooComplexName? {
          return TooComplexName;
        }
        if inner.NoEnd? {
          return NoEnd;
        }
        tmp := inner.rest;
      } else if tmp[0] == 'N' {
        var inner := ParseItaniumNestedName(tmp);
        if inner.TooComplex? {
          return TooComplexName;
        }
        if inner.NoName? {
          return NoEnd;
        }
        tmp := inner.rest;
      } else if tmp[0] == 'L' || tmp[0] == 'X' {
        return TooComplexName;
      } else if tmp[0] == 'E' {
        return Rest(tmp[1..]);
      } else {
        tmp := tmp[1..];
      }
    }
    return NoEnd;
  }

  method ParseItaniumNestedName(arg: string) returns (result: Parsed)
    requires arg != "" && arg[0] == 'N'
    ensures result == ParseNested(arg)
    ensures forall n, suffix :: GoodNested(n) && OneLine(suffix) && arg == PrintNested(n) + suffix ==> result == Name(NestedParts(n), suffix)
    ensures OneLine(arg) && result.Name? ==> exists t :: Prefixed(arg, t) && Spelled(result.parts, t, result.rest)
    ensures result.Name? ==> |result.rest| < |arg|
    decreases |arg|, 0
  {
    ParsedMeans(arg);
    hide GoodNested, PrintNested, NestedParts, OneLine, Prefixed, Spelled;
    var ret: Parts := [];
    var tmp := arg[1..];
    var substitution := MatchSubstitution(tmp);
    if substitution.Some? {
      tmp := substitution.value;
    }
    tmp := SkipQualifiers(tmp);
    while tmp != ""
      invariant |tmp| < |arg| && ParseParts(tmp, ret) == ParseNested(arg)
      decreases |tmp|
    {
      if tmp[0] == 'E' {
        return Name(ret, tmp[1..]);
      }
      var (namePart, rest) := ParseName(tmp);
      if namePart.None? {
        return NoName;
      }
      tmp := rest;
      var isTemplate := false;
      if tmp != "" && tmp[0] == 'I' {
        var skipped := SkipItaniumTemplate(tmp);
        if skipped.TooComplexName? {
          return TooComplex;
        }
        if skipped.NoEnd? {
          return NoName;
        }
        tmp := skipped.rest;
        isTemplate := true;
      }
      ret := ret + [(namePart.value, isTemplate)];
    }
    return NoName;
  }

  // ----- Names as they are printed ---------------------------------------------------------------------------

  datatype Args =
    | NoArgs
    | TypeArg(c: char, rest: Args)
    | StandardArg(c: char, rest: Args)
    | NameArg(name: string, rest: Args)
    | SubstitutionArg(code: string, rest: Args)
    | TemplateArg(args: Args, rest: Args)
    | NestedArg(nested: Nested, rest: Args)

  datatype Part = Identifier(name: string) | Structor(kind: string)

  datatype Comps =
    | NoComps
    | PlainComp(part: Part, rest: Comps)
    | TemplateComp(part: Part, args: Args, rest: Comps)

  /** The last component may be an operator. */
  datatype Nested = Nested(substitution: Option<string>, qualifiers: string, comps: Comps, operator: Option<string>)

  ghost predicate OneLine(s: string) {
    forall c :: c in s ==> c != '\n'
  }

  ghost predicate IsName(s: string) {
    s != "" && !('0' <= s[0] <= '9') && OneLine(s)
  }

  /** The names of constructors and destructors. */
  ghost predicate IsStructor(s: string) {
    s in {"C1", "C2", "C3", "D1", "D2", "D3"}
  }

  ghost predicate AreCodes(s: string) {
    forall c :: c in s ==> 'A' <= c <= 'Z' || '0' <= c <= '9'
  }

  ghost predicate AreQualifiers(s: string) {
    forall c :: c in s ==> c in "rVKRO"
  }

  ghost predicate GoodPart(p: Part) {
    match p
    case Identifier(name) => IsName(name)
    case Structor(kind) => IsStructor(kind)
  }

  ghost predicate GoodArgs(args: Args) {
    match args
    case NoArgs => true
    case TypeArg(c, rest) => !('0' <= c <= '9') && c !in "SINLXE\n" && GoodArgs(rest)
    case StandardArg(c, rest) => !('A' <= c <= 'Z') && !('0' <= c <= '9') && c !in "_\n" && GoodArgs(rest)
    case NameArg(name, rest) => IsName(name) && GoodArgs(rest)
    case SubstitutionArg(code, rest) => AreCodes(code) && GoodArgs(rest)
    case TemplateArg(inner, rest) => GoodArgs(inner) && GoodArgs(rest)
    case NestedArg(nested, rest) => GoodNested(nested) && GoodArgs(rest)
  }

  ghost predicate GoodComps(comps: Comps) {
    match comps
    case NoComps => true
    case PlainComp(part, rest) => GoodPart(part) && GoodComps(rest)
    case TemplateComp(part, args, rest) => GoodPart(part) && GoodArgs(args) && GoodComps(rest)
  }

  /** The last component has no template arguments. */
  ghost predicate EndsPlain(comps: Comps) {
    match comps
    case NoComps => false
    case PlainComp(_, rest) => rest.NoComps? || EndsPlain(rest)
    case TemplateComp(_, _, rest) => EndsPlain(rest)
  }

  /** An operator that reads as one, and not as the end, a name, a constructor or destructor. */
  ghost predicate IsOperator(s: string) {
    s != "" && OneLine(s) && 'E' !in s && !('0' <= s[0] <= '9') && !(|s| >= 2 && IsStructor(s[..2]))
  }

  /** s begins like a substitution, but has another character where that would have its end. */
  ghost predicate BreaksOff(s: string) {
    exists k :: 0 < k < |s| && AreCodes(s[1..k]) && !AreCodes([s[k]]) && s[k] != '_'
  }

  /** An operator that is not taken for what may stand in its place. */
  ghost predicate OperatorFits(n: Nested, op: string) {
    && IsOperator(op)
    && (n.comps.NoComps? ==> op[0] !in "rVKRO" && (n.substitution.None? && n.qualifiers == "" ==> (op[0] == 'S' ==> BreaksOff(op))))
    && (EndsPlain(n.comps) ==> op[0] != 'I')
  }

  ghost predicate GoodNested(n: Nested) {
    && (n.substitution.Some? ==> AreCodes(n.substitution.value)) && AreQualifiers(n.qualifiers) && GoodComps(n.comps)
    && (n.operator.Some? ==> OperatorFits(n, n.operator.value))
  }

  function Digits(n: nat): (s: string)
    ensures s != "" && forall c :: c in s ==> '0' <= c <= '9'
  {
    var last := [(n % 10 + '0' as int) as char];
    if n < 10 then last else Digits(n / 10) + last
  }

  function PrintName(name: string): string {
    Digits(|name|) + name
  }

  function PrintPart(p: Part): string {
    match p
    case Identifier(name) => PrintName(name)
    case Structor(kind) => kind
  }

  function PrintArgs(args: Args): string {
    match args
    case NoArgs => ""
    case TypeArg(c, rest) => [c] + PrintArgs(rest)
    case StandardArg(c, rest) => "S" + [c] + PrintArgs(rest)
    case NameArg(name, rest) => PrintName(name) + PrintArgs(rest)
    case SubstitutionArg(code, rest) => "S" + code + "_" + PrintArgs(rest)
    case TemplateArg(inner, rest) => "I" + PrintArgs(inner) + "E" + PrintArgs(rest)
    case NestedArg(nested, rest) => PrintNested(nested) + PrintArgs(rest)
  }

  function PrintComps(comps: Comps): string {
    match comps
    case NoComps => ""
    case PlainComp(part, rest) => PrintPart(part) + PrintComps(rest)
    case TemplateComp(part, args, rest) => PrintPart(part) + "I" + PrintArgs(args) + "E" + PrintComps(rest)
  }

  function PrintPrefix(n: Nested): string {
    (if n.substitution.Some? then "S" + n.substitution.value + "_" else "") + n.qualifiers
  }

  function PrintOperator(operator: Option<string>): string {
    if operator.Some? then operator.value else ""
  }

  function PrintNested(n: Nested): string {
    "N" + PrintPrefix(n) + PrintComps(n.comps) + PrintOperator(n.operator) + "E"
  }

  function PartsOf(comps: Comps): Parts {
    match comps
    case NoComps => []
    case PlainComp(part, rest) => [(PrintPart(part), false)] + PartsOf(rest)
    case TemplateComp(part, args, rest) => [(PrintPart(part), true)] + PartsOf(rest)
  }

  function NestedParts(n: Nested): Parts {
    PartsOf(n.comps) + if n.operator.Some? then [(n.operator.value, false)] else []
  }

  // ----- Reading back what was printed ---------------------------------------------------------------------------

  lemma {:induction false} DigitsToInt(n: nat)
    ensures ToInt(Digits(n)) == n
  {
    var last := [(n % 10 + '0' as int) as char];
    var s := Digits(n);
    if n >= 10 {
      DigitsToInt(n / 10);
      assert s[..|s| - 1] == Digits(n / 10);
    }
  }

  lemma {:induction false} SpanIs(a: string, b: string, p: char -> bool)
    requires (forall c :: c in a ==> p(c)) && (b != "" ==> !p(b[0]))
    ensures Span(a + b, p) == |a|
  {
    if a == "" {
      assert a + b == b;
    } else {
      assert (a + b)[1..] == a[1..] + b;
      assert forall c :: c in a[1..] ==> c in a;
      assert a[0] in a;
      SpanIs(a[1..], b, p);
    }
  }

  lemma LineIs(s: string)
    requires OneLine(s)
    ensures Line(s) == s
  {
    forall i | 0 <= i < |s| ensures s[i] != '\n' {
      assert s[i] in s;
    }
  }

  /** In one line, whatever is read as a name is split off: nothing is lost between the name and the rest. What begins
      with a number loses nothing when the number is longer than what follows it. */
  lemma NameSplitsOff(s: string)
    requires OneLine(s)
    ensures match ParseName(s)
            case (Some(name), rest) => name + rest == s && rest != s
            case (None, rest) => rest == s
  {
    NumberSplits(s);
    StructorSplits(s);
    OperatorSplits(s);
    if MatchNumber(s).Some? {
      var m := MatchNumber(s).value;
      TakesAndDrops(m.0, m.1, ToInt(m.0));
    }
    hide MatchNumber, MatchStructor, MatchOperator, ToInt, OneLine, Take, Drop;
  }

  lemma TakesAndDrops(a: string, s: string, n: nat)
    ensures a + Take(s, n) + Drop(s, n) == a + s
  {
    assert Take(s, n) + Drop(s, n) == s;
  }

  lemma NumberSplits(s: string)
    requires OneLine(s)
    ensures MatchNumber(s).Some? ==> MatchNumber(s).value.0 + MatchNumber(s).value.1 == s
  {
    var d := Span(s, IsDigit);
    SuffixIsLine(s, d);
    hide Span, Line;
    if s[d..] == "" && d > 1 {
      assert s[..d - 1] + s[d - 1..d] == s[..d];
    }
  }

  lemma StructorSplits(s: string)
    requires OneLine(s)
    ensures MatchStructor(s).Some? ==> MatchStructor(s).value.0 + MatchStructor(s).value.1 == s
  {
    if |s| >= 2 {
      SuffixIsLine(s, 2);
    }
  }

  lemma OperatorSplits(s: string)
    requires OneLine(s)
    ensures MatchOperator(s).Some? ==> MatchOperator(s).value.0 + MatchOperator(s).value.1 == s
  {
    var e := Span(s, c => c != 'E');
    SuffixIsLine(s, if e < |s| then e else LastInLine(s, e));
  }

  lemma SuffixIsLine(s: string, k: nat)
    requires OneLine(s) && k <= |s|
    ensures Line(s[k..]) == s[k..] && s[..k] + s[k..] == s
  {
    assert forall c :: c in s[k..] ==> c in s;
    LineIs(s[k..]);
  }

  lemma NumberThen(d: string, rest: string)
    requires d != "" && (forall c :: c in d ==> IsDigit(c)) && rest != "" && !IsDigit(rest[0]) && OneLine(rest)
    ensures MatchNumber(d + rest) == Some((d, rest))
  {
    SpanIs(d, rest, IsDigit);
    LineIs(rest);
    hide Span, Line;
    assert (d + rest)[..|d|] == d && (d + rest)[|d|..] == rest;
  }
  lemma ReadsName(name: string, rest: string)
    requires IsName(name) && OneLine(rest)
    ensures var s := PrintName(name) + rest;
            MatchNumber(s) == Some((Digits(|name|), name + rest)) && Drop(name + rest, |name|) == rest && ToInt(Digits(|name|)) == |name|
            && ParseName(s) == (Some(PrintName(name)), rest)
  {
    hide MatchNumber, ToInt, Digits;
    var d := Digits(|name|);
    assert PrintName(name) + rest == d + (name + rest);
    NumberThen(d, name + rest);
    DigitsToInt(|name|);
    assert (name + rest)[..|name|] == name && (name + rest)[|name|..] == rest;
  }

  /** The name of a constructor or destructor is its two characters, that of an operator all up to the end of the nested name. */
  lemma ReadsOther(name: string, rest: string)
    requires rest != "" && OneLine(rest) && (IsStructor(name) || (IsOperator(name) && rest[0] == 'E'))
    ensures ParseName(name + rest) == (Some(name), rest)
  {
    var s := name + rest;
    assert s[..|name|] == name && s[|name|..] == rest;
    NoNumber(s);
    LineIs(rest);
    hide MatchNumber, Span, Line, LastInLine;
    if IsStructor(name) {
      assert s[..2] == name && MatchStructor(s) == Some((name, rest));
    } else {
      SpanIs(name, rest, c => c != 'E');
      assert MatchStructor(s) == None by {
        if |name| >= 2 {
          StructorIs(name[..2]);
        }
      }
      assert MatchOperator(s) == Some((name, rest));
    }
  }

  lemma StructorIs(s: string)
    requires |s| == 2
    ensures IsStructor(s) <==> (s[0] == 'C' || s[0] == 'D') && '1' <= s[1] <= '3'
  {
    assert s == [s[0], s[1]];
    if s[0] == 'C' || s[0] == 'D' {
      assert s[1] == '1' || s[1] == '2' || s[1] == '3' || !('1' <= s[1] <= '3');
    }
  }

  predicate StartsPart(c: char) {
    '0' <= c <= '9' || c == 'C' || c == 'D'
  }

  lemma ReadsPart(p: Part, rest: string)
    requires GoodPart(p) && rest != "" && OneLine(rest)
    ensures var s := PrintPart(p) + rest; ParseName(s) == (Some(PrintPart(p)), rest) && s != "" && StartsPart(s[0])
  {
    hide ParseName, MatchNumber, ToInt, Digits, Drop;
    match p
    case Identifier(name) =>
      ReadsName(name, rest);
      assert PrintName(name)[0] == Digits(|name|)[0] && Digits(|name|)[0] in Digits(|name|);
    case Structor(kind) => ReadsOther(kind, rest);
  }

  lemma ReadsSubstitution(code: string, rest: string)
    requires AreCodes(code) && rest != "" && OneLine(rest)
    ensures MatchSubstitution("S" + code + "_" + rest) == Some(rest) && MatchNumber("S" + code + "_" + rest) == None
  {
    var s := "S" + code + "_" + rest;
    assert s[1..] == code + ("_" + rest);
    SpanIs(code, "_" + rest, IsCode);
    assert s[|code| + 2..] == rest;
    LineIs(rest);
  }

  lemma PrintedOneLine(args: Args)
    requires GoodArgs(args)
    ensures OneLine(PrintArgs(args))
    decreases args
  {
    hide Digits;
    match args
    case NoArgs =>
    case TypeArg(c, rest) => PrintedOneLine(rest);
    case StandardArg(c, rest) => PrintedOneLine(rest);
    case NameArg(name, rest) => PrintedOneLine(rest); DigitsOneLine(|name|);
    case SubstitutionArg(code, rest) => PrintedOneLine(rest);
    case TemplateArg(inner, rest) => PrintedOneLine(inner); PrintedOneLine(rest);
    case NestedArg(nested, rest) => NestedOneLine(nested); PrintedOneLine(rest);
  }

  lemma DigitsOneLine(n: nat)
    ensures OneLine(Digits(n))
  {
  }

  lemma PartOneLine(part: Part)
    requires GoodPart(part)
    ensures OneLine(PrintPart(part))
  {
    match part
    case Identifier(name) => DigitsOneLine(|name|);
    case Structor(_) =>
  }

  lemma CompsOneLine(comps: Comps)
    requires GoodComps(comps)
    ensures OneLine(PrintComps(comps))
    decreases comps
  {
    hide PrintPart;
    match comps
    case NoComps =>
    case PlainComp(part, rest) => CompsOneLine(rest); PartOneLine(part);
    case TemplateComp(part, args, rest) => CompsOneLine(rest); PrintedOneLine(args); PartOneLine(part);
  }

  lemma NestedOneLine(n: Nested)
    requires GoodNested(n)
    ensures OneLine(PrintNested(n)) && OneLine(PrintComps(n.comps)) && OneLine(PrintOperator(n.operator))
    decreases n
  {
    hide PrintComps;
    CompsOneLine(n.comps);
    assert forall c :: c in n.qualifiers ==> c != '\n';
  }

  lemma SkipsNumber(s: string)
    requires MatchNumber(s).Some?
    ensures SkipArgs(s) == SkipArgs(Drop(MatchNumber(s).value.1, ToInt(MatchNumber(s).value.0)))
  {
    hide MatchNumber;
    EmptyHasNoNumber();
  }

  lemma EmptyHasNoNumber()
    ensures MatchNumber("") == None
  {
  }

  lemma SkipsSubstitution(s: string)
    requires s != "" && MatchNumber(s) == None && MatchSubstitution(s).Some?
    ensures SkipArgs(s) == SkipArgs(MatchSubstitution(s).value)
  {
    hide MatchNumber, MatchSubstitution;
  }

  lemma NoNumber(s: string)
    requires s != "" && !('0' <= s[0] <= '9')
    ensures MatchNumber(s) == None
    ensures s[0] != 'S' ==> MatchSubstitution(s) == None
  {
  }

  lemma SkipsChar(c: char, tail: string)
    requires !('0' <= c <= '9') && c !in "SIN"
    ensures SkipArgs([c] + tail) == if c == 'E' then Rest(tail) else if c in "LX" then TooComplexName else SkipArgs(tail)
  {
    var s := [c] + tail;
    assert s[1..] == tail;
    NoNumber(s);
    hide MatchNumber, MatchSubstitution;
  }

  lemma SkipsStandard(c: char, tail: string)
    requires !('A' <= c <= 'Z') && !('0' <= c <= '9') && c !in "_\n"
    ensures SkipArgs("S" + [c] + tail) == SkipArgs(tail)
  {
    var s := "S" + [c] + tail;
    assert s[1..] == [c] + tail;
    NoNumber(s);
    assert MatchSubstitution(s) == None by {
      SpanIs("", [c] + tail, IsCode);
      assert "" + ([c] + tail) == [c] + tail;
    }
    hide MatchNumber, MatchSubstitution;
    SkipsChar(c, tail);
  }

  lemma SkipsTemplate(inner: string, tail: string)
    requires SkipArgs(inner) == Rest(tail)
    ensures SkipArgs("I" + inner) == SkipArgs(tail)
  {
    var s := "I" + inner;
    assert s[1..] == inner;
    NoNumber(s);
    hide MatchNumber, MatchSubstitution;
  }

  lemma SkipsNested(s: string, parts: Parts, tail: string)
    requires s != "" && s[0] == 'N' && ParseNested(s) == Name(parts, tail)
    ensures SkipArgs(s) == SkipArgs(tail)
  {
    NoNumber(s);
    hide MatchNumber, MatchSubstitution, ParseNested;
  }

  /** Printed arguments are passed over one by one. */
  lemma {:induction false} ArgsRead(args: Args, after: string)
    requires GoodArgs(args) && after != "" && OneLine(after)
    ensures SkipArgs(PrintArgs(args) + after) == SkipArgs(after)
    decreases args, 0
  {
    hide SkipArgs, MatchNumber, MatchSubstitution, ParseNested, PrintNested, Digits, ToInt, Drop;
    var s := PrintArgs(args) + after;
    match args
    case NoArgs =>
      assert s == after;
    case TypeArg(c, rest) =>
      assert s == [c] + (PrintArgs(rest) + after);
      SkipsChar(c, PrintArgs(rest) + after);
      ArgsRead(rest, after);
    case StandardArg(c, rest) =>
      assert s == "S" + [c] + (PrintArgs(rest) + after);
      SkipsStandard(c, PrintArgs(rest) + after);
      ArgsRead(rest, after);
    case NameArg(name, rest) =>
      var tail := PrintArgs(rest) + after;
      assert s == PrintName(name) + tail;
      PrintedOneLine(rest);
      ReadsName(name, tail);
      SkipsNumber(s);
      ArgsRead(rest, after);
    case SubstitutionArg(code, rest) =>
      var tail := PrintArgs(rest) + after;
      assert s == "S" + code + "_" + tail;
      PrintedOneLine(rest);
      ReadsSubstitution(code, tail);
      SkipsSubstitution(s);
      ArgsRead(rest, after);
    case TemplateArg(inner, rest) =>
      var tail := PrintArgs(rest) + after;
      assert s == "I" + (PrintArgs(inner) + "E" + tail);
      PrintedOneLine(rest);
      ArgsSkipped(inner, tail);
      SkipsTemplate(PrintArgs(inner) + "E" + tail, tail);
      ArgsRead(rest, after);
    case NestedArg(nested, rest) =>
      var tail := PrintArgs(rest) + after;
      assert s == PrintNested(nested) + tail;
      PrintedOneLine(rest);
      NestedParsed(nested, tail);
      SkipsNested(s, NestedParts(nested), tail);
      ArgsRead(rest, after);
  }

  /** A printed argument list is skipped, and what follows it is left. */
  lemma {:induction false} ArgsSkipped(args: Args, suffix: string)
    requires GoodArgs(args) && OneLine(suffix)
    ensures SkipArgs(PrintArgs(args) + "E" + suffix) == Rest(suffix)
    decreases args, 1
  {
    hide SkipArgs, PrintArgs;
    ArgsRead(args, "E" + suffix);
    assert PrintArgs(args) + ("E" + suffix) == PrintArgs(args) + "E" + suffix && "E" + suffix == ['E'] + suffix;
    SkipsChar('E', suffix);
  }

  /** An expression or literal among the arguments is too complex. */
  lemma ArgsTooComplex(args: Args, c: char, suffix: string)
    requires GoodArgs(args) && c in "LX" && OneLine(suffix)
    ensures SkipArgs(PrintArgs(args) + [c] + suffix) == TooComplexName
  {
    hide SkipArgs, PrintArgs;
    ArgsRead(args, [c] + suffix);
    assert PrintArgs(args) + ([c] + suffix) == PrintArgs(args) + [c] + suffix;
    SkipsChar(c, suffix);
  }

  lemma PartsEnd(suffix: string, before: Parts)
    ensures ParseParts("E" + suffix, before) == Name(before, suffix)
  {
    assert ("E" + suffix)[1..] == suffix;
  }

  lemma PartRead(name: string, rest: string, before: Parts)
    requires var s := name + rest; s != "" && s[0] != 'E' && ParseName(s) == (Some(name), rest) && rest != ""
    ensures ParseParts(name + rest, before) ==
            if rest[0] == 'I' then
              match SkipArgs(rest[1..])
              case Rest(r) => ParseParts(r, before + [(name, true)])
              case NoEnd => NoName
              case TooComplexName => TooComplex
            else ParseParts(rest, before + [(name, false)])
  {
    hide ParseName, SkipArgs;
  }

  lemma TemplateRead(part: Part, args: Args, tail: string, before: Parts)
    requires GoodPart(part) && GoodArgs(args) && OneLine(tail) && SkipArgs(PrintArgs(args) + "E" + tail) == Rest(tail)
    ensures ParseParts(PrintPart(part) + ("I" + (PrintArgs(args) + "E" + tail)), before) == ParseParts(tail, before + [(PrintPart(part), true)])
  {
    hide ParseParts, ParseName, SkipArgs, PrintPart, PrintArgs;
    var body := "I" + (PrintArgs(args) + "E" + tail);
    PrintedOneLine(args);
    ReadsPart(part, body);
    assert body[1..] == PrintArgs(args) + "E" + tail;
    PartRead(PrintPart(part), body, before);
  }

  /** Printed components are read one by one. */
  lemma {:induction false} CompsParsed(comps: Comps, before: Parts, after: string)
    requires GoodComps(comps) && after != "" && OneLine(after) && (EndsPlain(comps) ==> after[0] != 'I')
    ensures ParseParts(PrintComps(comps) + after, before) == ParseParts(after, before + PartsOf(comps))
    decreases comps
  {
    hide ParseParts, ParseName, SkipArgs, PrintPart, PrintArgs;
    var s := PrintComps(comps) + after;
    match comps
    case NoComps =>
      assert s == after && before + [] == before;
    case PlainComp(part, rest) =>
      var tail := PrintComps(rest) + after;
      assert s == PrintPart(part) + tail;
      CompsOneLine(rest);
      ReadsPart(part, tail);
      StartsLikeName(rest, after);
      PartRead(PrintPart(part), tail, before);
      CompsParsed(rest, before + [(PrintPart(part), false)], after);
      assert before + [(PrintPart(part), false)] + PartsOf(rest) == before + PartsOf(comps);
    case TemplateComp(part, args, rest) =>
      var tail := PrintComps(rest) + after;
      var body := "I" + (PrintArgs(args) + "E" + tail);
      assert s == PrintPart(part) + body;
      CompsOneLine(rest);
      ArgsSkipped(args, tail);
      TemplateRead(part, args, tail, before);
      CompsParsed(rest, before + [(PrintPart(part), true)], after);
      assert before + [(PrintPart(part), true)] + PartsOf(rest) == before + PartsOf(comps);
  }

  lemma StartsLikeName(comps: Comps, after: string)
    requires GoodComps(comps) && after != ""
    ensures var s := PrintComps(comps) + after; s != "" && if comps.NoComps? then s == after else StartsPart(s[0])
  {
    hide PrintPart, PrintArgs;
    match comps
    case NoComps =>
    case PlainComp(part, rest) => StartsLikePart(part);
    case TemplateComp(part, args, rest) =>
      StartsLikePart(part);
      assert PrintComps(comps) == PrintPart(part) + "I" + PrintArgs(args) + "E" + PrintComps(rest);
  }

  lemma StartsLikePart(part: Part)
    requires GoodPart(part)
    ensures PrintPart(part) != "" && StartsPart(PrintPart(part)[0])
  {
    hide Digits;
    match part
    case Identifier(name) => assert Digits(|name|)[0] in Digits(|name|);
    case Structor(_) =>
  }

  /** Parsing a printed nested name gives exactly its parts, each with whether it is a template, and leaves what follows. */
  lemma {:induction false} NestedParsed(n: Nested, suffix: string)
    requires GoodNested(n) && OneLine(suffix)
    ensures var s := PrintNested(n) + suffix;
            s != "" && s[0] == 'N' && ParseNested(s) == Name(NestedParts(n), suffix) && MatchNumber(s) == None && MatchSubstitution(s) == None
    decreases n
  {
    hide PrintComps, PrintPrefix, AfterPrefix, ParseParts, ParseName, MatchNumber, MatchSubstitution, GoodComps, IsOperator;
    var s := PrintNested(n) + suffix;
    var after := PrintOperator(n.operator) + "E" + suffix;
    assert s == "N" + PrintPrefix(n) + (PrintComps(n.comps) + after);
    NoNumber(s);
    NestedOneLine(n);
    PrefixEnds(n, suffix);
    PrefixSkipped(n, PrintComps(n.comps) + after);
    CompsParsed(n.comps, [], after);
    assert [] + PartsOf(n.comps) == PartsOf(n.comps);
    if n.operator.Some? {
      var op := n.operator.value;
      assert after == op + ("E" + suffix);
      OperatorRead(op, "E" + suffix, PartsOf(n.comps));
      PartsEnd(suffix, PartsOf(n.comps) + [(op, false)]);
    } else {
      assert after == "E" + suffix;
      PartsEnd(suffix, PartsOf(n.comps));
    }
  }

  lemma OperatorRead(op: string, rest: string, before: Parts)
    requires IsOperator(op) && rest != "" && rest[0] == 'E' && OneLine(rest)
    ensures ParseParts(op + rest, before) == ParseParts(rest, before + [(op, false)])
  {
    hide ParseName, ParseParts;
    ReadsOther(op, rest);
    assert op[0] in op;
    PartRead(op, rest, before);
  }

  lemma PrefixSkipped(n: Nested, body: string)
    requires GoodNested(n) && OneLine(body) && body != "" && body[0] !in "rVKRO"
    requires n.substitution.None? && n.qualifiers == "" && body[0] == 'S' ==> MatchSubstitution(body) == None
    ensures AfterPrefix("N" + PrintPrefix(n) + body) == body
  {
    hide MatchSubstitution, SkipQualifiers, GoodComps, AreCodes, OperatorFits;
    var s := "N" + PrintPrefix(n) + body;
    QualifiersSkipped(n.qualifiers, body);
    var rest := n.qualifiers + body;
    if n.substitution.Some? {
      assert s[1..] == "S" + n.substitution.value + "_" + rest;
      ReadsSubstitution(n.substitution.value, rest);
    } else {
      assert s[1..] == rest;
      if n.qualifiers == "" {
        assert rest == body;
      }
      if n.qualifiers != "" || body[0] != 'S' {
        NotSubstituted(n.qualifiers, body);
      }
    }
  }

  /** What follows the prefix is not taken for more of it. */
  lemma PrefixEnds(n: Nested, suffix: string)
    requires GoodNested(n)
    ensures var after := PrintOperator(n.operator) + "E" + suffix;
            var body := PrintComps(n.comps) + after;
            && body != "" && body[0] !in "rVKRO" && (EndsPlain(n.comps) ==> after[0] != 'I')
            && (n.substitution.None? && n.qualifiers == "" && body[0] == 'S' ==> MatchSubstitution(body) == None)
  {
    hide PrintComps, MatchSubstitution, BreaksOff, GoodComps, AreCodes, OneLine, IsStructor;
    var after := PrintOperator(n.operator) + "E" + suffix;
    StartsLikeName(n.comps, after);
    if n.comps.NoComps? && n.operator.Some? && n.operator.value[0] == 'S' && n.substitution.None? && n.qualifiers == "" {
      assert after == n.operator.value + ("E" + suffix);
      NotSubstitution(n.operator.value, "E" + suffix);
    }
  }

  lemma QualifiersSkipped(qualifiers: string, body: string)
    requires AreQualifiers(qualifiers) && body != "" && body[0] !in "rVKRO" && OneLine(body)
    ensures SkipQualifiers(qualifiers + body) == body && OneLine(qualifiers + body)
  {
    SpanIs(qualifiers, body, IsQualifier);
    LineIs(body);
    hide Span, Line;
    assert (qualifiers + body)[|qualifiers|..] == body;
  }

  lemma NotSubstituted(qualifiers: string, body: string)
    requires AreQualifiers(qualifiers) && body != "" && (qualifiers == "" ==> body[0] != 'S')
    ensures MatchSubstitution(qualifiers + body) == None
  {
    var rest := qualifiers + body;
    assert qualifiers != "" ==> rest[0] in qualifiers;
    hide Span, Line;
  }

  lemma NotSubstitution(op: string, rest: string)
    requires BreaksOff(op) && op[0] == 'S'
    ensures MatchSubstitution(op + rest) == None
  {
    var k :| 0 < k < |op| && AreCodes(op[1..k]) && !AreCodes([op[k]]) && op[k] != '_';
    var s := op + rest;
    assert s[1..] == op[1..k] + s[k..];
    SpanIs(op[1..k], s[k..], IsCode);
    hide Span, Line;
  }

  /** A name whose template arguments hold an expression or a literal is too complex. */
  lemma NestedTooComplex(n: Nested, part: Part, args: Args, c: char, suffix: string)
    requires GoodNested(n) && n.operator.None? && GoodPart(part) && GoodArgs(args) && c in "LX" && OneLine(suffix)
    ensures ParseNested("N" + PrintPrefix(n) + (PrintComps(n.comps) + (PrintPart(part) + ("I" + (PrintArgs(args) + [c] + suffix))))) == TooComplex
  {
    hide PrintComps, PrintPrefix, AfterPrefix, ParseParts, ParseName, GoodComps, PrintPart, PrintArgs, SkipArgs;
    var inner := PrintArgs(args) + [c] + suffix;
    var body := "I" + inner;
    var after := PrintPart(part) + body;
    PrintedOneLine(args);
    PartOneLine(part);
    CompsOneLine(n.comps);
    StartsLikePart(part);
    StartsLikeName(n.comps, after);
    PrefixSkipped(n, PrintComps(n.comps) + after);
    CompsParsed(n.comps, [], after);
    ReadsPart(part, body);
    assert body[1..] == inner;
    ArgsTooComplex(args, c, suffix);
    PartRead(PrintPart(part), body, [] + PartsOf(n.comps));
  }

  // ----- What was read is what is there ---------------------------------------------------------------------------

  /** s ends in an E and then r. */
  ghost predicate Closes(s: string, r: string) {
    |r| < |s| && s[|s| - |r|..] == r && s[|s| - |r| - 1] == 'E'
  }

  ghost predicate IsSuffix(r: string, s: string) {
    |r| <= |s| && s[|s| - |r|..] == r
  }

  /** s is made up of the parts, each in the place of its name and the templates followed by an argument list from I to E,
      then E and the rest. */
  ghost predicate Spelled(parts: Parts, s: string, rest: string) {
    if parts == [] then s == "E" + rest
    else
      var (name, isTemplate) := parts[0];
      && name != "" && |name| <= |s| && s[..|name|] == name
      && var t := s[|name|..];
         if isTemplate then exists r :: t != "" && t[0] == 'I' && Closes(t[1..], r) && Spelled(parts[1..], r, rest)
         else (t != "" ==> t[0] != 'I') && Spelled(parts[1..], t, rest)
  }

  lemma SuffixCloses(t: string, s: string, r: string)
    requires IsSuffix(t, s) && Closes(t, r)
    ensures Closes(s, r)
  {
    assert t[|t| - |r| - 1] == s[|s| - |t|..][|t| - |r| - 1];
    assert s[|s| - |r|..] == s[|s| - |t|..][|t| - |r|..];
  }

  lemma SuffixOneLine(t: string, s: string)
    requires IsSuffix(t, s) && OneLine(s)
    ensures OneLine(t)
  {
    forall c | c in t ensures c in s {
      var i :| 0 <= i < |t| && t[i] == c;
      assert s[|s| - |t| + i] == c;
    }
  }

  lemma DropIsSuffix(s: string, n: nat, whole: string)
    requires IsSuffix(s, whole)
    ensures IsSuffix(Drop(s, n), whole)
  {
    assert Drop(s, n) == if n <= |s| then s[n..] else "";
    if n <= |s| {
      assert whole[|whole| - (|s| - n)..] == whole[|whole| - |s|..][n..];
    }
  }

  lemma NumberLeavesSuffix(s: string)
    requires OneLine(s) && MatchNumber(s).Some?
    ensures IsSuffix(Drop(MatchNumber(s).value.1, ToInt(MatchNumber(s).value.0)), s)
  {
    NumberSplits(s);
    var m := MatchNumber(s).value;
    hide MatchNumber, Drop, ToInt;
    assert s[|s| - |m.1|..] == m.1;
    DropIsSuffix(m.1, ToInt(m.0), s);
  }

  lemma SubstitutionSplits(s: string)
    requires OneLine(s) && MatchSubstitution(s).Some?
    ensures exists a :: MaySubstitute(a) && s == a + MatchSubstitution(s).value
    ensures IsSuffix(MatchSubstitution(s).value, s)
  {
    var k := 1 + Span(s[1..], IsCode);
    SuffixIsLine(s, k + 1);
    var code := s[1..k];
    assert forall c :: c in code ==> IsCode(c) by {
      forall i | 0 <= i < |code| ensures IsCode(code[i]) {
        assert code[i] == s[1..][i];
      }
    }
    hide Span, Line;
    var a := "S" + code + "_";
    assert MaySubstitute(a) && s == a + s[k + 1..];
  }

  lemma TailIsSuffix(s: string)
    requires s != ""
    ensures IsSuffix(s[1..], s) && (s[0] == 'E' ==> Closes(s, s[1..]))
  {
  }

  lemma ClosedIsSuffix(s: string, r: string)
    requires Closes(s, r)
    ensures IsSuffix(r, s) && |r| < |s|
  {
  }

  /** What follows an argument list comes right behind an E. */
  lemma {:induction false} SkippedCloses(s: string)
    requires OneLine(s) && SkipArgs(s).Rest?
    ensures Closes(s, SkipArgs(s).rest)
    decreases |s|, 1
  {
    hide Drop, ToInt, MatchNumber, MatchSubstitution, ParseNested, Closes, IsSuffix, OneLine;
    TailIsSuffix(s);
    var t := s[1..];
    if MatchNumber(s).Some? {
      NumberLeavesSuffix(s);
      t := Drop(MatchNumber(s).value.1, ToInt(MatchNumber(s).value.0));
    } else if MatchSubstitution(s).Some? {
      SubstitutionSplits(s);
      t := MatchSubstitution(s).value;
    } else if s[0] == 'E' {
      return;
    } else if s[0] == 'I' {
      SuffixOneLine(s[1..], s);
      SkippedCloses(s[1..]);
      t := SkipArgs(s[1..]).rest;
      SuffixCloses(s[1..], s, t);
      ClosedIsSuffix(s, t);
    } else if s[0] == 'N' {
      NestedSpelled(s);
      t := ParseNested(s).rest;
      ClosedIsSuffix(s, t);
    }
    SuffixOneLine(t, s);
    SkippedCloses(t);
    SuffixCloses(t, s, SkipArgs(s).rest);
  }

  lemma {:induction false} PartsSpelled(s: string, before: Parts)
    requires OneLine(s) && ParseParts(s, before).Name?
    ensures var p := ParseParts(s, before);
            before <= p.parts && Spelled(p.parts[|before|..], s, p.rest) && Closes(s, p.rest)
    decreases |s|, 1
  {
    hide ParseName, SkipArgs, Closes, IsSuffix, OneLine;
    var p := ParseParts(s, before);
    TailIsSuffix(s);
    if s[0] != 'E' {
      NameSplitsOff(s);
      var (name, t) := ParseName(s);
      assert s[..|name.value|] == name.value && s[|name.value|..] == t;
      assert IsSuffix(t, s) by { IsSplit(name.value, t); }
      SuffixOneLine(t, s);
      if t != "" && t[0] == 'I' {
        var r := SkipArgs(t[1..]).rest;
        TailIsSuffix(t);
        SuffixOneLine(t[1..], t);
        SkippedCloses(t[1..]);
        SuffixCloses(t[1..], t, r);
        SuffixCloses(t, s, r);
        ClosedIsSuffix(s, r);
        SuffixOneLine(r, s);
        PartsSpelled(r, before + [(name.value, true)]);
        SuffixCloses(r, s, p.rest);
        PartSpelled(p.parts, before, (name.value, true));
      } else {
        PartsSpelled(t, before + [(name.value, false)]);
        SuffixCloses(t, s, p.rest);
        PartSpelled(p.parts, before, (name.value, false));
      }
    }
  }

  lemma IsSplit(a: string, b: string)
    ensures IsSuffix(b, a + b)
  {
  }

  lemma PartSpelled(parts: Parts, before: Parts, part: (string, bool))
    requires before + [part] <= parts
    ensures before <= parts && var own := parts[|before|..]; own != [] && own[0] == part && own[1..] == parts[|before| + 1..]
  {
    assert parts[|before|] == (before + [part])[|before|];
  }

  lemma QualifiersSplit(s: string)
    requires OneLine(s)
    ensures exists b :: AreQualifiers(b) && s == b + SkipQualifiers(s)
    ensures IsSuffix(SkipQualifiers(s), s)
  {
    var q := Span(s, IsQualifier);
    SuffixIsLine(s, q);
    var b := if s[q..] != "" || q == 0 then s[..q] else s[..q - 1];
    assert AreQualifiers(b) && s == b + SkipQualifiers(s);
    IsSplit(b, SkipQualifiers(s));
  }

  /** A substitution as it may precede the qualifiers, if there is one. */
  ghost predicate MaySubstitute(s: string) {
    s == "" || exists code :: AreCodes(code) && s == "S" + code + "_"
  }

  /** s begins with N, perhaps a substitution, and qualifiers, then comes t. */
  ghost predicate Prefixed(s: string, t: string) {
    exists a, b :: MaySubstitute(a) && AreQualifiers(b) && s == "N" + a + b + t
  }

  lemma PrefixSplits(s: string)
    requires s != "" && s[0] == 'N' && OneLine(s)
    ensures Prefixed(s, AfterPrefix(s)) && IsSuffix(AfterPrefix(s), s)
  {
    hide SkipQualifiers, MatchSubstitution, Closes, OneLine, AreQualifiers, MaySubstitute, IsSuffix;
    TailIsSuffix(s);
    SuffixOneLine(s[1..], s);
    var a, u := "", s[1..];
    NoSubstitution();
    if MatchSubstitution(s[1..]).Some? {
      SubstitutionSplits(s[1..]);
      u := MatchSubstitution(s[1..]).value;
      SuffixOneLine(u, s[1..]);
      a :| MaySubstitute(a) && s[1..] == a + u;
    }
    QualifiersSplit(u);
    var b :| AreQualifiers(b) && u == b + SkipQualifiers(u);
    Assembled(s, a, u, b, SkipQualifiers(u));
  }

  lemma NoSubstitution()
    ensures MaySubstitute("")
  {
  }

  lemma Assembled(s: string, a: string, u: string, b: string, t: string)
    requires s != "" && s[0] == 'N' && s[1..] == a + u && u == b + t
    ensures s == "N" + a + b + t && IsSuffix(t, s)
  {
    IsSplit("N" + a + b, t);
  }

  /** Whatever is read as a nested name is spelled so: nothing is left out, read twice or made up. */
  lemma {:induction false} NestedSpelled(s: string)
    requires s != "" && s[0] == 'N' && OneLine(s) && ParseNested(s).Name?
    ensures exists t :: Prefixed(s, t) && Spelled(ParseNested(s).parts, t, ParseNested(s).rest)
    ensures Closes(s, ParseNested(s).rest)
    decreases |s|, 0
  {
    hide ParseParts, AfterPrefix, Closes, OneLine, IsSuffix, Prefixed, Spelled;
    var p := ParseNested(s);
    var t := AfterPrefix(s);
    PrefixSplits(s);
    SuffixOneLine(t, s);
    PartsSpelled(t, []);
    assert p.parts[0..] == p.parts;
    SuffixCloses(t, s, p.rest);
  }

  lemma ParsedMeans(arg: string)
    requires arg != "" && arg[0] == 'N'
    ensures forall n, suffix :: GoodNested(n) && OneLine(suffix) && arg == PrintNested(n) + suffix ==>
              ParseNested(arg) == Name(NestedParts(n), suffix)
    ensures OneLine(arg) && ParseNested(arg).Name? ==>
              exists t :: Prefixed(arg, t) && Spelled(ParseNested(arg).parts, t, ParseNested(arg).rest)
  {
    hide *;
    forall n, suffix | GoodNested(n) && OneLine(suffix) && arg == PrintNested(n) + suffix
      ensures ParseNested(arg) == Name(NestedParts(n), suffix)
    {
      NestedParsed(n, suffix);
    }
    if OneLine(arg) && ParseNested(arg).Name? {
      NestedSpelled(arg);
    }
  }
}
