/** Decimal numbers and the integer syntax of the parser's number reader. */
module Numerals {
  import opened Transactions

  function DigitChar(d: nat): char
    requires d < 16
  {
    if d < 10 then ('0' as int + d) as char else ('a' as int + d - 10) as char
  }

  /** The digits of a number in a base. */
  function ToBase(n: nat, base: nat): (s: string)
    requires 2 <= base <= 16
    ensures |s| > 0
    decreases n
  {
    if n < base then [DigitChar(n)] else ToBase(n / base, base) + [DigitChar(n % base)]
  }

  function ToDecimal(n: nat): (s: string)
    ensures |s| > 0
  {
    ToBase(n, 10)
  }

  /** The value of a digit in any base up to 36; 36 for other characters. */
  function DigitValue(c: char): nat {
    if '0' <= c <= '9' then c as int - '0' as int
    else if 'a' <= c <= 'z' then c as int - 'a' as int + 10
    else if 'A' <= c <= 'Z' then c as int - 'A' as int + 10
    else 36
  }

  /** What was read before: nothing, a digit or the prefix of a base, an underscore. */
  datatype Previous = Start | Number | Separator

  /** Reads a number in a base. Underscores may separate digits. */
  function Digits(s: string, base: nat, acc: nat, prev: Previous, some: bool): Option<nat> {
    if s == [] then if some && !prev.Separator? then Some(acc) else None
    else if s[0] == '_' then if prev.Number? then Digits(s[1..], base, acc, Separator, some) else None
    else if DigitValue(s[0]) >= base then None
    else Digits(s[1..], base, acc * base + DigitValue(s[0]), Number, true)
  }

  /** A number without sign: a prefix 0b, 0o or 0x, or just 0, selects the base. */
  function Magnitude(s: string): Option<nat> {
    if |s| < 2 || s[0] != '0' then Digits(s, 10, 0, Start, false)
    else if s[1] in {'b', 'B'} then Digits(s[2..], 2, 0, Number, false)
    else if s[1] in {'o', 'O'} then Digits(s[2..], 8, 0, Number, false)
    else if s[1] in {'x', 'X'} then Digits(s[2..], 16, 0, Number, false)
    else Digits(s[1..], 8, 0, Number, false)
  }

  function ReadInteger(s: string): Option<int> {
    if s != [] && s[0] in {'+', '-'} then
      var m := Magnitude(s[1..]);
      if m.None? then None
      else
        var v: int := m.value;
        Some(if s[0] == '-' then -v else v)
    else
      var m := Magnitude(s);
      if m.None? then None else Some(m.value)
  }

  /** Reading the digits of a number in a base gives the number. */
  lemma {:induction false} DigitsOfBase(n: nat, base: nat, rest: string, prev: Previous, some: bool)
    requires 2 <= base <= 16
    ensures Digits(ToBase(n, base) + rest, base, 0, prev, some) == Digits(rest, base, n, Number, true)
    decreases n
  {
    var digit, front := n % base, n / base;
    var d := DigitChar(digit);
    var tail := [d] + rest;
    Division(n, base, front, digit);
    if n < base {
      OneDigit(digit, rest, base, 0, prev, some, n);
    } else {
      DigitsOfBase(front, base, tail, prev, some);
      OneDigit(digit, rest, base, front, Number, true, n);
      InFront(ToBase(front, base), d, rest);
    }
  }

  lemma InFront(front: string, d: char, rest: string)
    ensures front + [d] + rest == front + ([d] + rest)
  {
  }

  lemma OneDigit(digit: nat, rest: string, base: nat, acc: nat, prev: Previous, some: bool, next: nat)
    requires digit < base <= 16 && next == acc * base + digit
    ensures Digits([DigitChar(digit)] + rest, base, acc, prev, some) == Digits(rest, base, next, Number, true)
  {
    var d := DigitChar(digit);
    var s := [d] + rest;
    assert DigitValue(d) == digit && d != '_' && s[1..] == rest && s[0] == d;
  }

  lemma Division(n: nat, base: nat, front: nat, digit: nat)
    requires base >= 2 && front == n / base && digit == n % base
    ensures front * base + digit == n && digit < base && (n < base ==> digit == n && front == 0)
    ensures n >= base ==> front < n
  {
  }

  /** A prefix selects the base: binary, octal or hexadecimal, in either case. */
  lemma ReadPrefixed(n: nat)
    ensures ReadInteger("0b" + ToBase(n, 2)) == ReadInteger("0B" + ToBase(n, 2)) == Some(n)
    ensures ReadInteger("0o" + ToBase(n, 8)) == ReadInteger("0O" + ToBase(n, 8)) == Some(n)
    ensures ReadInteger("0x" + ToBase(n, 16)) == ReadInteger("0X" + ToBase(n, 16)) == Some(n)
  {
    AfterPrefix(n, 2, 'b', 'B');
    AfterPrefix(n, 8, 'o', 'O');
    AfterPrefix(n, 16, 'x', 'X');
  }

  lemma AfterPrefix(n: nat, base: nat, lower: char, upper: char)
    requires (base, lower, upper) in {(2, 'b', 'B'), (8, 'o', 'O'), (16, 'x', 'X')}
    ensures ReadInteger(['0', lower] + ToBase(n, base)) == Some(n)
    ensures ReadInteger(['0', upper] + ToBase(n, base)) == Some(n)
  {
    var d := ToBase(n, base);
    assert (['0', lower] + d)[2..] == d && (['0', upper] + d)[2..] == d && d + [] == d;
    DigitsOfBase(n, base, [], Number, false);
  }

  /** A sign in front, where the number is read without one. */
  lemma ReadSigned(s: string)
    requires s == [] || s[0] !in {'+', '-'}
    ensures ReadInteger(['+'] + s) == ReadInteger(s)
    ensures ReadInteger(['-'] + s) == if ReadInteger(s).None? then None else Some(-ReadInteger(s).value)
  {
    assert (['+'] + s)[1..] == s && (['-'] + s)[1..] == s;
  }

  /** Decimals are made of digits and do not start with 0 unless they are 0. */
  lemma {:induction false} DecimalShape(n: nat)
    ensures forall c :: c in ToDecimal(n) ==> '0' <= c <= '9'
    ensures n > 0 ==> ToDecimal(n)[0] != '0'
    decreases n
  {
    if n >= 10 {
      DecimalShape(n / 10);
      assert ToDecimal(n) == ToDecimal(n / 10) + [DigitChar(n % 10)];
    }
  }

  lemma ReadDecimal(n: nat)
    ensures ReadInteger(ToDecimal(n)) == Some(n)
  {
    DecimalShape(n);
    assert ToDecimal(n) + [] == ToDecimal(n);
    DigitsOfBase(n, 10, [], Start, false);
    assert ToDecimal(n)[0] in ToDecimal(n);
    if n == 0 { assert |ToDecimal(0)| == 1; }
  }
}

/** Derivation paths of hierarchical deterministic wallets, as in BIP-32. */
module DerivationPaths {
  import opened Transactions
  import opened Numerals

  const HARDENED: nat := 0x8000_0000
  const MAX_UINT32: nat := 0xFFFF_FFFF

  /** A path of 32-bit components. */
  predicate IsPath(path: seq<nat>) { forall i :: 0 <= i < |path| ==> path[i] <= MAX_UINT32 }

  const DEFAULT_ROOT: seq<nat> := [HARDENED + 44, HARDENED + 60, HARDENED, 0]

  datatype Error = EmptyPath | AmbiguousPath | InvalidComponent | OutOfRange
  datatype Result = Ok(path: seq<nat>) | Err(error: Error)

  predicate IsSpace(c: char) {
    || c in {'\t', '\n', '\U{0B}', '\U{0C}', '\r', ' ', '\U{85}', '\U{A0}', '\U{1680}'}
    || '\U{2000}' <= c <= '\U{200A}'
    || c in {'\U{2028}', '\U{2029}', '\U{202F}', '\U{205F}', '\U{3000}'}
  }

  function TrimLeft(s: string): string { if s != [] && IsSpace(s[0]) then TrimLeft(s[1..]) else s }

  function TrimRight(s: string): string { if s != [] && IsSpace(s[|s| - 1]) then TrimRight(s[..|s| - 1]) else s }

  function TrimSpace(s: string): string { TrimRight(TrimLeft(s)) }

  /** The parts between the slashes; there is always at least one. */
  function Split(s: string): (parts: seq<string>)
    ensures |parts| > 0
  {
    if s == [] then [[]]
    else
      var rest := Split(s[1..]);
      if s[0] == '/' then [[]] + rest else [[s[0]] + rest[0]] + rest[1..]
  }

  /** One component: trimmed, with a quote if it is hardened. */
  function ParseComponent(component: string): Result {
    var c := TrimSpace(component);
    var hardened := c != [] && c[|c| - 1] == '\'';
    var value := if hardened then HARDENED else 0;
    var number := ReadInteger(if hardened then TrimSpace(c[..|c| - 1]) else c);
    if number.None? then Err(InvalidComponent)
    else if number.value < 0 || number.value > MAX_UINT32 - value then Err(OutOfRange)
    else Ok([value + number.value])
  }

  /** The components appended to what is there, up to the first error. */
  function ParseAll(path: seq<nat>, components: seq<string>): Result
    decreases |components|
  {
    if components == [] then Ok(path)
    else
      var first := ParseComponent(components[0]);
      if first.Err? then first else ParseAll(path + first.path, components[1..])
  }

  /** The meaning of a path string. */
  function Parse(s: string): Result {
    var parts := Split(s);
    var head := TrimSpace(parts[0]);
    if head == [] then Err(AmbiguousPath)
    else if head == "m" then if |parts| == 1 then Err(EmptyPath) else ParseAll([], parts[1..])
    else ParseAll(DEFAULT_ROOT, parts)
  }

  function Render(component: nat): string {
    if component >= HARDENED then ToDecimal(component - HARDENED) + "'" else ToDecimal(component)
  }

  function Print(path: seq<nat>): string {
    if path == [] then "m" else Print(path[..|path| - 1]) + "/" + Render(path[|path| - 1])
  }

  /** The body of the loop over the components. */
  method ReadComponent(text: string) returns (r: Result)
    ensures r == ParseComponent(text)
    ensures r.Ok? ==> |r.path| == 1 && r.path[0] <= MAX_UINT32
  {
    var component := TrimSpace(text);
    var value := 0;
    if component != [] && component[|component| - 1] == '\'' {
      value := HARDENED;
      component := TrimSpace(component[..|component| - 1]);
    }
    var bigval := ReadInteger(component);
    if bigval.None? { return Err(InvalidComponent); }
    if bigval.value < 0 || bigval.value > MAX_UINT32 - value { return Err(OutOfRange); }
    r := Ok([value + bigval.value]);
  }

  method ReadComponents(start: seq<nat>, components: seq<string>) returns (r: Result)
    requires IsPath(start)
    ensures r == ParseAll(start, components)
    ensures r.Ok? ==> |r.path| == |start| + |components| && IsPath(r.path)
  {
    var result := start;
    assert components[0..] == components;
    for i := 0 to |components|
      invariant IsPath(result) && |result| == |start| + i
      invariant ParseAll(result, components[i..]) == ParseAll(start, components)
    {
      var value := ReadComponent(components[i]);
      assert components[i..][0] == components[i] && components[i..][1..] == components[i + 1..];
      if value.Err? { return value; }
      result := result + value.path;
    }
    r := Ok(result);
  }

  /** Reads a path. What it accepts is a non-empty path of 32-bit components; a string
      without leading m is relative to the default root. */
  method ParseDerivationPath(s: string) returns (r: Result)
    ensures r == Parse(s)
    ensures r.Ok? ==> r.path != [] && IsPath(r.path)
  {
    var components := Split(s);
    var start: seq<nat> := [];
    var head := TrimSpace(components[0]);
    if head == [] { return Err(AmbiguousPath); }
    if head == "m" { components := components[1..]; }
    else { start := DEFAULT_ROOT; }
    if |components| == 0 { return Err(EmptyPath); }
    r := ReadComponents(start, components);
  }

  method String(path: seq<nat>) returns (result: string)
    ensures result == Print(path)
  {
    result := "m";
    for i := 0 to |path|
      invariant result == Print(path[..i])
    {
      assert path[..i + 1][..i] == path[..i];
      var component, hardened := path[i], false;
      if component >= HARDENED { component, hardened := component - HARDENED, true; }
      result := result + "/" + ToDecimal(component);
      if hardened { result := result + "'"; }
    }
    assert path[..|path|] == path;
  }

  /** A last part without slash. */
  lemma {:induction false} SplitLast(s: string, last: string)
    requires '/' !in last
    ensures Split(s + "/" + last) == Split(s) + [last]
  {
    var t := s + "/" + last;
    if s == [] {
      assert t[1..] == last;
      SplitSingle(last);
    } else {
      assert t[1..] == s[1..] + "/" + last;
      SplitLast(s[1..], last);
    }
  }

  lemma {:induction false} SplitSingle(s: string)
    requires '/' !in s
    ensures Split(s) == [s]
  {
    if s != [] {
      assert s[0] in s;
      SplitSingle(s[1..]);
      assert s == [s[0]] + s[1..];
    }
  }

  /** A first part without slash. */
  lemma {:induction false} SplitFirst(first: string, s: string)
    requires '/' !in first
    ensures Split(first + "/" + s) == [first] + Split(s)
  {
    var t := first + "/" + s;
    if first == [] {
      assert t[1..] == s;
    } else {
      assert first[0] in first && t[1..] == first[1..] + "/" + s;
      SplitFirst(first[1..], s);
      assert first == [first[0]] + first[1..];
    }
  }

  /** Parts in front of a string, with slashes. */
  function Behind(parts: seq<string>, s: string): string {
    if parts == [] then s else parts[0] + "/" + Behind(parts[1..], s)
  }

  lemma {:induction false} SplitBehind(parts: seq<string>, s: string)
    requires forall p :: p in parts ==> '/' !in p
    ensures Split(Behind(parts, s)) == parts + Split(s)
  {
    if parts == [] {
      assert parts + Split(s) == Split(s);
    } else {
      var first, others := parts[0], parts[1..];
      assert first in parts && forall p :: p in others ==> p in parts;
      SplitBehind(others, s);
      SplitFirst(first, Behind(others, s));
      FirstAndRest(parts, Split(s));
    }
  }

  const ROOT: seq<string> := ["44'", "60'", "0'", "0"]

  lemma BehindRoot(s: string)
    ensures Behind(["m"] + ROOT, s) == "m/44'/60'/0'/0/" + s
  {
    var a, b, c, d := ROOT[1..], ROOT[2..], ROOT[3..], "0/" + s;
    assert Behind([], s) == s;
    assert c == ["0"] && c[1..] == [] && Behind(c, s) == d;
    assert b[0] == "0'" && b[1..] == c && Behind(b, s) == "0'/" + d;
    assert a[0] == "60'" && a[1..] == b && Behind(a, s) == "60'/0'/" + d;
    assert ROOT[1..] == a && Behind(ROOT, s) == "44'/60'/0'/" + d;
    assert (["m"] + ROOT)[1..] == ROOT;
  }

  /** A relative path is one below the default root. */
  lemma RelativePath(s: string)
    requires TrimSpace(Split(s)[0]) != [] && TrimSpace(Split(s)[0]) != "m"
    ensures Parse(s) == Parse("m/44'/60'/0'/0/" + s)
  {
    BehindRoot(s);
    RootIs();
    PathBehind(ROOT, DEFAULT_ROOT, s);
  }

  lemma PathBehind(root: seq<string>, path: seq<nat>, s: string)
    requires IsPath(path) && |root| == |path| && forall i :: 0 <= i < |path| ==> root[i] == Render(path[i])
    ensures Parse(Behind(["m"] + root, s)) == ParseAll(path, Split(s))
  {
    var m, none: seq<nat>, own := ["m"], [], Split(s);
    forall p | p in m + root ensures '/' !in p { RenderedHasNoSlash(root, path, p); }
    SplitBehind(m + root, s);
    Regroup(m, root, own);
    Regroup(none, none, path);
    AbsolutePath(Behind(m + root, s), root + own);
    ParsePrefix(none, root, path, own);
  }

  lemma Regroup<T>(a: seq<T>, b: seq<T>, c: seq<T>)
    ensures a + b + c == a + (b + c) && (a == [] ==> a + c == c)
  {
  }

  lemma RenderedHasNoSlash(root: seq<string>, path: seq<nat>, p: string)
    requires |root| == |path| && (forall i :: 0 <= i < |path| ==> root[i] == Render(path[i])) && (p in root || p == "m")
    ensures '/' !in p
  {
    if p in root {
      var i :| 0 <= i < |root| && root[i] == p;
      RenderShape(path[i]);
    }
  }

  lemma AbsolutePath(s: string, parts: seq<string>)
    requires Split(s) == ["m"] + parts && parts != []
    ensures Parse(s) == ParseAll([], parts)
  {
    TrimNothing("m");
    assert (["m"] + parts)[1..] == parts;
  }

  lemma RootIs()
    ensures IsPath(DEFAULT_ROOT) && |ROOT| == |DEFAULT_ROOT|
    ensures forall i :: 0 <= i < |ROOT| ==> ROOT[i] == Render(DEFAULT_ROOT[i])
  {
    assert ToBase(4, 10) == "4" && ToBase(6, 10) == "6" && ToDecimal(0) == "0";
    assert ToDecimal(44) == "4" + "4" && ToDecimal(60) == "6" + "0";
  }

  lemma FirstAndRest<T>(s: seq<T>, rest: seq<T>)
    requires s != []
    ensures [s[0]] + (s[1..] + rest) == s + rest
  {
  }

  lemma DropFirst<T>(s: seq<T>, rest: seq<T>)
    requires s != []
    ensures (s + rest)[0] == s[0] && (s + rest)[1..] == s[1..] + rest
  {
  }

  lemma MoveFirst<T>(start: seq<T>, s: seq<T>)
    requires s != []
    ensures start + [s[0]] + s[1..] == start + s
  {
  }

  lemma ParseOne(start: seq<nat>, components: seq<string>, value: nat)
    requires components != [] && ParseComponent(components[0]) == Ok([value])
    ensures ParseAll(start, components) == ParseAll(start + [value], components[1..])
  {
  }

  /** Rendered components in front of others are read first. */
  lemma {:induction false} ParsePrefix(start: seq<nat>, texts: seq<string>, path: seq<nat>, rest: seq<string>)
    requires IsPath(path) && |texts| == |path| && forall i :: 0 <= i < |path| ==> texts[i] == Render(path[i])
    ensures ParseAll(start, texts + rest) == ParseAll(start + path, rest)
    decreases |path|
  {
    if path == [] {
      assert start + path == start && texts + rest == rest;
    } else {
      var begun, more, others, path' := start + [path[0]], texts + rest, texts[1..], path[1..];
      DropFirst(texts, rest);
      MoveFirst(start, path);
      ParseRender(path[0]);
      ParseOne(start, more, path[0]);
      ParsePrefix(begun, others, path', rest);
    }
  }

  /** White space around a component does not matter. */
  lemma {:induction false} SpaceBehind(s: string, x: char)
    requires IsSpace(x)
    ensures TrimSpace(s + [x]) == TrimSpace(s)
    ensures TrimLeft(s) == [] ==> TrimLeft(s + [x]) == []
    ensures TrimLeft(s) != [] ==> TrimLeft(s + [x]) == TrimLeft(s) + [x]
  {
    if s == [] {
      assert (s + [x])[1..] == [];
    } else if IsSpace(s[0]) {
      assert (s + [x])[1..] == s[1..] + [x];
      SpaceBehind(s[1..], x);
    }
    if TrimLeft(s) != [] {
      var t := TrimLeft(s);
      assert (t + [x])[..|t|] == t;
    }
  }

  lemma SpacesAround(component: string, x: char)
    requires IsSpace(x)
    ensures ParseComponent([x] + component) == ParseComponent(component) == ParseComponent(component + [x])
  {
    assert ([x] + component)[1..] == component;
    SpaceBehind(component, x);
  }

  function Renders(path: seq<nat>): seq<string> {
    if path == [] then [] else Renders(path[..|path| - 1]) + [Render(path[|path| - 1])]
  }

  /** A rendered component is digits and perhaps a quote. */
  lemma RenderShape(component: nat)
    ensures var s := Render(component); |s| > 0 && '/' !in s && !IsSpace(s[0]) && !IsSpace(s[|s| - 1])
    ensures var s := Render(component); s[|s| - 1] == '\'' <==> component >= HARDENED
  {
    var n: nat := if component >= HARDENED then component - HARDENED else component;
    DecimalShape(n);
    var d := ToDecimal(n);
    assert d[0] in d && d[|d| - 1] in d;
  }

  lemma {:induction false} SplitPrint(path: seq<nat>)
    ensures Split(Print(path)) == ["m"] + Renders(path)
  {
    if path == [] {
      SplitSingle("m");
    } else {
      var front, last := path[..|path| - 1], path[|path| - 1];
      SplitPrint(front);
      RenderShape(last);
      SplitLast(Print(front), Render(last));
    }
  }

  lemma TrimNothing(s: string)
    requires s != [] && !IsSpace(s[0]) && !IsSpace(s[|s| - 1])
    ensures TrimSpace(s) == s
  {
  }

  /** A decimal component is taken if it fits 32 bits, with a quote if it fits 31 bits, and
      then has the highest bit set. */
  lemma ComponentIs(n: nat)
    ensures ParseComponent(ToDecimal(n)) == if n <= 0xFFFF_FFFF then Ok([n]) else Err(OutOfRange)
    ensures ParseComponent(ToDecimal(n) + "'") == if n < 0x8000_0000 then Ok([n + 0x8000_0000]) else Err(OutOfRange)
  {
    var d := ToDecimal(n);
    DecimalShape(n);
    assert d[0] in d && d[|d| - 1] in d;
    TrimNothing(d);
    TrimNothing(d + "'");
    ReadDecimal(n);
    assert (d + "'")[..|d|] == d;
  }

  lemma ParseRender(component: nat)
    requires component <= MAX_UINT32
    ensures ParseComponent(Render(component)) == Ok([component])
  {
    ComponentIs(if component >= HARDENED then component - HARDENED else component);
  }

  lemma ParseRenders(start: seq<nat>, texts: seq<string>, path: seq<nat>)
    requires IsPath(path) && |texts| == |path| && forall i :: 0 <= i < |path| ==> texts[i] == Render(path[i])
    ensures ParseAll(start, texts) == Ok(start + path)
  {
    ParsePrefix(start, texts, path, []);
    assert texts + [] == texts;
  }

  lemma {:induction false} RendersAt(path: seq<nat>)
    ensures |Renders(path)| == |path| && forall i :: 0 <= i < |path| ==> Renders(path)[i] == Render(path[i])
  {
    if path != [] { RendersAt(path[..|path| - 1]); }
  }

  /** Printing and parsing give back every path of 32-bit components but the empty one,
      hardened components included. */
  lemma RoundTrip(path: seq<nat>)
    requires IsPath(path)
    ensures Parse(Print(path)) == if path == [] then Err(EmptyPath) else Ok(path)
  {
    SplitPrint(path);
    TrimNothing("m");
    RendersAt(path);
    ParseRenders([], Renders(path), path);
    assert (["m"] + Renders(path))[1..] == Renders(path) && [] + path == path;
  }
}
