/**
 * The text forms a parameter group stores its values in, and the path
 * syntax of group names (src/Base/Parameter.cpp).
 *
 * Booleans are stored as "1" / "0", signed integers with `%li` and read back
 * with `atol`, unsigned integers with `%lu` and read back with
 * `strtoul(s, 0, 10)`. `long` and `unsigned long` are taken to be 64 bits
 * wide (an LP64 platform) and the parsers saturate as the C library does.
 *
 * A group path is split on '/', every token is trimmed of white space and
 * empty tokens are skipped; a group's own path joins the names of its
 * ancestors with '/'.
 */
module ParamValues {
  const LongMin: int := -0x8000_0000_0000_0000
  const LongMax: int := 0x7FFF_FFFF_FFFF_FFFF
  const ULongMax: int := 0xFFFF_FFFF_FFFF_FFFF

  predicate InLong(v: int) { LongMin <= v <= LongMax }
  predicate InULong(v: int) { 0 <= v <= ULongMax }

  predicate IsDigit(c: char) { '0' <= c <= '9' }

  predicate AllDigits(s: string) { forall i :: 0 <= i < |s| ==> IsDigit(s[i]) }

  /** `std::isspace` in the classic locale: blank, \t, \n, \v, \f, \r. */
  predicate IsSpace(c: char) { c == ' ' || 9 <= c as int <= 13 }

  function DigitChar(d: nat): (c: char)
    requires d < 10
    ensures IsDigit(c)
  {
    (('0' as int) + d) as char
  }

  function DigitValue(c: char): (d: nat)
    requires IsDigit(c)
    ensures d < 10
  {
    (c as int) - ('0' as int)
  }

  /** The decimal digits of `n`, most significant first, without leading zeros. */
  function Decimal(n: nat): (s: string)
    ensures |s| > 0 && AllDigits(s)
    ensures s[0] != '0' || n == 0
  {
    if n < 10 then [DigitChar(n)] else Decimal(n / 10) + [DigitChar(n % 10)]
  }

  /**
   * The value `strtol` accumulates from the digits at the front of `s`,
   * starting from `acc`: it stops at the first character that is not a digit.
   */
  function LeadingValue(s: string, acc: nat): nat
  {
    if |s| > 0 && IsDigit(s[0]) then LeadingValue(s[1..], acc * 10 + DigitValue(s[0])) else acc
  }

  lemma {:induction false} LeadingValueSnoc(s: string, d: char, acc: nat)
    requires AllDigits(s) && IsDigit(d)
    ensures LeadingValue(s + [d], acc) == LeadingValue(s, acc) * 10 + DigitValue(d)
  {
    if |s| > 0 {
      assert (s + [d])[1..] == s[1..] + [d];
      LeadingValueSnoc(s[1..], d, acc * 10 + DigitValue(s[0]));
    } else {
      assert (s + [d])[1..] == [];
    }
  }

  /** Reading the digits `Decimal` writes gives the number back. */
  lemma {:induction false} DecimalValue(n: nat)
    ensures LeadingValue(Decimal(n), 0) == n
  {
    if n >= 10 {
      DecimalValue(n / 10);
      LeadingValueSnoc(Decimal(n / 10), DigitChar(n % 10), 0);
    } else {
      assert Decimal(n)[1..] == [];
    }
  }

  /** `sprintf("%li", v)`. */
  function FormatLong(v: int): string
  {
    if v < 0 then "-" + Decimal(-v) else Decimal(v)
  }

  /** `sprintf("%lu", v)`. */
  function FormatULong(v: nat): string
  {
    Decimal(v)
  }

  /** Drops leading white space, as `strtol`, `strtoul` and `boost::trim` do. */
  function SkipSpace(s: string): (t: string)
    ensures |t| <= |s|
  {
    if |s| > 0 && IsSpace(s[0]) then SkipSpace(s[1..]) else s
  }

  /** The text after an optional sign. */
  function Unsigned(t: string): string
  {
    if |t| > 0 && (t[0] == '-' || t[0] == '+') then t[1..] else t
  }

  /** The magnitude `strtol`/`strtoul` read after white space and the sign. */
  function Magnitude(s: string): nat
  {
    LeadingValue(Unsigned(SkipSpace(s)), 0)
  }

  predicate IsNegative(s: string)
  {
    var t := SkipSpace(s);
    |t| > 0 && t[0] == '-'
  }

  /** `atol(s)`: `strtol(s, 0, 10)`, clamped to the range of `long`. */
  function ParseLong(s: string): (v: int)
    ensures InLong(v)
  {
    var m: int := Magnitude(s);
    if IsNegative(s) then (if -m < LongMin then LongMin else -m)
    else if m > LongMax then LongMax else m
  }

  /**
   * `strtoul(s, 0, 10)`: a magnitude beyond `ULONG_MAX` gives `ULONG_MAX`,
   * a leading '-' negates the value modulo 2^64.
   */
  function ParseULong(s: string): (v: int)
    ensures InULong(v)
  {
    var m: int := Magnitude(s);
    if m > ULongMax then ULongMax
    else if IsNegative(s) && m != 0 then ULongMax + 1 - m
    else m
  }

  lemma {:induction false} DigitsMagnitude(n: nat)
    ensures Magnitude(Decimal(n)) == n && !IsNegative(Decimal(n))
  {
    var s := Decimal(n);
    assert IsDigit(s[0]);
    assert SkipSpace(s) == s;
    assert Unsigned(s) == s;
    DecimalValue(n);
  }

  /** `GetInt` after `SetInt(v)` reads `v` back. */
  lemma {:induction false} ParseFormatLong(v: int)
    requires InLong(v)
    ensures ParseLong(FormatLong(v)) == v
  {
    DigitsMagnitude(if v < 0 then -v else v);
    if v < 0 {
      var s := FormatLong(v);
      assert SkipSpace(s) == s;
      assert Unsigned(s) == Decimal(-v);
    }
  }

  /** `GetUnsigned` after `SetUnsigned(v)` reads `v` back. */
  lemma {:induction false} ParseFormatULong(v: int)
    requires InULong(v)
    ensures ParseULong(FormatULong(v)) == v
  {
    DigitsMagnitude(v);
  }

  /** What `SetBool` stores. */
  function EncodeBool(b: bool): string
  {
    if b then "1" else "0"
  }

  /** How `GetBool` reads a stored value: true exactly for "1". */
  predicate DecodeBool(s: string)
  {
    s == "1"
  }

  lemma {:induction false} DecodeEncodeBool(b: bool)
    ensures DecodeBool(EncodeBool(b)) == b
    ensures EncodeBool(DecodeBool(EncodeBool(b))) == EncodeBool(b)
  {
  }

  // ---------------------------------------------------------------------
  // Group paths

  /** The index of the first '/' in `s`, or `|s|` when there is none. */
  function FirstSlash(s: string): (i: nat)
    ensures i <= |s| && (i < |s| ==> s[i] == '/')
    ensures forall j :: 0 <= j < i ==> s[j] != '/'
  {
    if |s| == 0 || s[0] == '/' then 0 else 1 + FirstSlash(s[1..])
  }

  lemma {:induction false} FirstSlashUnique(s: string, i: nat)
    requires i <= |s| && (i < |s| ==> s[i] == '/')
    requires forall j :: 0 <= j < i ==> s[j] != '/'
    ensures FirstSlash(s) == i
  {
    if |s| > 0 && s[0] != '/' {
      FirstSlashUnique(s[1..], i - 1);
    }
  }

  /** `boost::split(tokens, s, is_any_of("/"))`: empty tokens are kept. */
  function Split(s: string): (toks: seq<string>)
    ensures |toks| > 0
    decreases |s|
  {
    var i := FirstSlash(s);
    if i == |s| then [s] else [s[..i]] + Split(s[i + 1..])
  }

  /** No token holds the separator. */
  lemma {:induction false} SplitNoSlash(s: string)
    ensures forall k :: 0 <= k < |Split(s)| ==> '/' !in Split(s)[k]
    decreases |s|
  {
    var i := FirstSlash(s);
    if i < |s| {
      SplitNoSlash(s[i + 1..]);
    }
  }

  /** Splitting at a '/' splits the two sides apart. */
  lemma {:induction false} SplitAppend(a: string, b: string)
    ensures Split(a + "/" + b) == Split(a) + Split(b)
    decreases |a|
  {
    var s := a + "/" + b;
    var i := FirstSlash(a);
    FirstSlashUnique(s, i);
    if i == |a| {
      assert s[..i] == a;
      assert s[i + 1..] == b;
    } else {
      assert s[..i] == a[..i];
      assert s[i + 1..] == a[i + 1..] + "/" + b;
      SplitAppend(a[i + 1..], b);
    }
  }

  lemma {:induction false} SplitPlain(t: string)
    requires '/' !in t
    ensures Split(t) == [t]
  {
    FirstSlashUnique(t, |t|);
  }

  /** Drops trailing white space. */
  function TrimRight(s: string): (t: string)
    ensures |t| <= |s|
  {
    if |s| > 0 && IsSpace(s[|s| - 1]) then TrimRight(s[..|s| - 1]) else s
  }

  /** `boost::trim`: white space removed from both ends. */
  function Trim(s: string): string
  {
    TrimRight(SkipSpace(s))
  }

  lemma {:induction false} SkipSpaceSuffix(s: string)
    ensures SkipSpace(s) == s[|s| - |SkipSpace(s)|..]
    ensures |SkipSpace(s)| == 0 || !IsSpace(SkipSpace(s)[0])
  {
    if |s| > 0 && IsSpace(s[0]) {
      SkipSpaceSuffix(s[1..]);
    }
  }

  lemma {:induction false} TrimRightPrefix(s: string)
    ensures TrimRight(s) == s[..|TrimRight(s)|]
    ensures |TrimRight(s)| == 0 || !IsSpace(TrimRight(s)[|TrimRight(s)| - 1])
  {
    if |s| > 0 && IsSpace(s[|s| - 1]) {
      TrimRightPrefix(s[..|s| - 1]);
    }
  }

  /** Trimming leaves a name without white space at either end, and adds no '/'. */
  lemma {:induction false} TrimShape(s: string)
    ensures var t := Trim(s); |t| == 0 || (!IsSpace(t[0]) && !IsSpace(t[|t| - 1]))
    ensures '/' !in s ==> '/' !in Trim(s)
  {
    var l := SkipSpace(s);
    SkipSpaceSuffix(s);
    TrimRightPrefix(l);
    var t := TrimRight(l);
    if |t| > 0 {
      assert t[0] == l[0];
    }
    assert forall i :: 0 <= i < |t| ==> t[i] == s[|s| - |l| + i];
  }

  /** A name that survives tokenising unchanged: non-empty, no '/', trimmed. */
  predicate PlainName(n: string)
  {
    |n| > 0 && '/' !in n && !IsSpace(n[0]) && !IsSpace(n[|n| - 1])
  }

  /** A token as `GetGroup` uses it: trimmed, and dropped when empty. */
  function KeepOne(tok: string): seq<string>
  {
    var t := Trim(tok);
    if |t| == 0 then [] else [t]
  }

  /** The trimmed tokens that are not empty, in order. */
  function KeepNames(toks: seq<string>): seq<string>
  {
    if |toks| == 0 then [] else KeepOne(toks[0]) + KeepNames(toks[1..])
  }

  lemma {:induction false} KeepNamesAppend(xs: seq<string>, ys: seq<string>)
    ensures KeepNames(xs + ys) == KeepNames(xs) + KeepNames(ys)
  {
    if |xs| > 0 {
      KeepNamesAppend(xs[1..], ys);
      assert (xs + ys)[1..] == xs[1..] + ys;
      assert (xs + ys)[0] == xs[0];
    } else {
      assert xs + ys == ys;
    }
  }

  /** The group names `GetGroup` walks for a path. */
  function PathTokens(path: string): seq<string>
  {
    KeepNames(Split(path))
  }

  /** Every name `GetGroup` walks is plain. */
  lemma {:induction false} PathTokensPlain(path: string)
    ensures forall i :: 0 <= i < |PathTokens(path)| ==> PlainName(PathTokens(path)[i])
  {
    SplitNoSlash(path);
    KeepNamesPlain(Split(path));
  }

  lemma {:induction false} KeepNamesPlain(toks: seq<string>)
    requires forall i :: 0 <= i < |toks| ==> '/' !in toks[i]
    ensures forall i :: 0 <= i < |KeepNames(toks)| ==> PlainName(KeepNames(toks)[i])
  {
    if |toks| > 0 {
      KeepNamesPlain(toks[1..]);
      TrimShape(toks[0]);
    }
  }

  /** The path of a group below `path`, as `GetPath` builds it. */
  function JoinName(path: string, name: string): string
  {
    if |path| > 0 && |name| > 0 then path + "/" + name else path + name
  }

  /** A joined path tokenises into the tokens of both sides. */
  lemma {:induction false} JoinNameTokens(path: string, name: string)
    ensures PathTokens(JoinName(path, name)) == PathTokens(path) + PathTokens(name)
  {
    if |path| > 0 && |name| > 0 {
      SplitAppend(path, name);
      KeepNamesAppend(Split(path), Split(name));
    } else if |path| == 0 {
      assert path + name == name;
      NoTokens(path);
    } else {
      assert path + name == path;
      NoTokens(name);
    }
  }

  lemma {:induction false} PlainNameTokens(name: string)
    requires PlainName(name)
    ensures PathTokens(name) == [name]
  {
    SplitPlain(name);
    assert SkipSpace(name) == name;
    assert TrimRight(name) == name;
    assert KeepOne(name) == [name];
    assert [name][1..] == [];
    assert KeepNames([name]) == KeepOne(name) + KeepNames([]);
  }

  /** A token that is blank names no group. */
  lemma {:induction false} NoTokens(t: string)
    requires '/' !in t && |Trim(t)| == 0
    ensures PathTokens(t) == []
  {
    SplitPlain(t);
    assert KeepOne(t) == [];
    assert [t][1..] == [];
    assert KeepNames([t]) == KeepOne(t) + KeepNames([]);
  }

  /** Tokenising a path with a '/' in it tokenises both sides. */
  lemma {:induction false} SlashTokens(a: string, b: string)
    ensures PathTokens(a + "/" + b) == PathTokens(a) + PathTokens(b)
  {
    SplitAppend(a, b);
    KeepNamesAppend(Split(a), Split(b));
  }

  /**
   * A blank segment between two '/' does not change what a path names: "a//b"
   * and "a/ /b" name the same group as "a/b".
   */
  lemma {:induction false} BlankSegmentIgnored(a: string, w: string, b: string)
    requires '/' !in w && |Trim(w)| == 0
    ensures PathTokens(a + "/" + w + "/" + b) == PathTokens(a + "/" + b)
  {
    var tail := w + "/" + b;
    assert a + "/" + w + "/" + b == a + "/" + tail;
    SlashTokens(a, tail);
    SlashTokens(w, b);
    NoTokens(w);
    SlashTokens(a, b);
  }
}
