/** The named patterns of the Format validator (`FORMATS` in
    lib/vandrake/validator/format.rb), written as predicates on the whole
    string. `^` and `$` are read as whole-string anchors; `\w` is the ASCII
    class `[a-zA-Z0-9_]`. */
module Formats {
  import opened Values

  predicate All(s: string, p: char -> bool)
  {
    forall k | 0 <= k < |s| :: p(s[k])
  }

  predicate IsAlpha(c: char) { 'a' <= c <= 'z' || 'A' <= c <= 'Z' }

  predicate IsAlnum(c: char) { IsAlpha(c) || IsDigit(c) }

  predicate IsHexDigit(c: char) { IsDigit(c) || 'a' <= c <= 'f' || 'A' <= c <= 'F' }

  predicate IsWordOrHyphen(c: char) { IsAlnum(c) || c == '_' || c == '-' }

  predicate IsLocalChar(c: char) { IsWordOrHyphen(c) || c == '.' || c == '+' }

  /** `:alnum`, `/^[a-zA-Z0-9]+$/`. */
  predicate IsAlnumString(s: string) { |s| > 0 && All(s, IsAlnum) }

  /** `:hex`, `/^[0-9a-fA-F]+$/`. */
  predicate IsHexString(s: string) { |s| > 0 && All(s, IsHexDigit) }

  /** The length of the longest prefix of `s` made of digits. */
  function DigitRun(s: string): (n: nat)
    ensures n <= |s|
    ensures All(s[..n], IsDigit)
    ensures n < |s| ==> !IsDigit(s[n])
  {
    if s != [] && IsDigit(s[0]) then
      var n := 1 + DigitRun(s[1..]);
      assert s[..n] == [s[0]] + s[1..][..n - 1];
      n
    else 0
  }

  /** One to three digits followed by a literal dot; answers the rest. */
  predicate DottedGroup(s: string)
  {
    var n := DigitRun(s);
    1 <= n <= 3 && n < |s| && s[n] == '.'
  }

  function AfterGroup(s: string): string
    requires DottedGroup(s)
  {
    s[DigitRun(s) + 1..]
  }

  /** `\d{1,3}.\d{1,3}$` with the group before the separator `k` digits long:
      the separator is an unescaped `.`, so any character but a newline. */
  predicate IpTailAt(u: string, k: nat)
  {
    k < |u| && All(u[..k], IsDigit) && u[k] != '\n'
    && 1 <= |u| - k - 1 <= 3 && All(u[k + 1..], IsDigit)
  }

  /** `:ip`, `/^\d{1,3}\.\d{1,3}\.\d{1,3}.\d{1,3}$/`. A run of digits followed
      by a literal dot has only one way to match `\d{1,3}\.`, so the first two
      groups are read off deterministically. */
  predicate IsIp(s: string)
  {
    DottedGroup(s) && DottedGroup(AfterGroup(s))
    && var u := AfterGroup(AfterGroup(s));
       IpTailAt(u, 1) || IpTailAt(u, 2) || IpTailAt(u, 3)
  }

  /** `s` cut at every occurrence of `sep`. */
  function Split(s: string, sep: char): (parts: seq<string>)
    ensures |parts| >= 1
    ensures forall k :: 0 <= k < |parts| ==> sep !in parts[k]
  {
    if s == [] then [""]
    else
      var rest := Split(s[1..], sep);
      if s[0] == sep then [""] + rest else [[s[0]] + rest[0]] + rest[1..]
  }

  /** The part after `@` of `:email`: `[\w\-]+\.([\w\-]+\.)*([A-Za-z])+`, that
      is, two or more non-empty dot-separated labels of word characters and
      hyphens, the last of them letters only. */
  predicate IsEmailDomain(d: string)
  {
    var labels := Split(d, '.');
    |labels| >= 2
    && (forall k | 0 <= k < |labels| :: |labels[k]| > 0 && All(labels[k], IsWordOrHyphen))
    && All(labels[|labels| - 1], IsAlpha)
  }

  /** `:email`, `/^[\w\.\+\-]+@[\w\-]+\.([\w\-]+\.)*([A-Za-z])+$/`. Neither side
      may contain `@`, so the string holds exactly one. */
  predicate IsEmail(s: string)
  {
    var parts := Split(s, '@');
    |parts| == 2 && |parts[0]| > 0 && All(parts[0], IsLocalChar) && IsEmailDomain(parts[1])
  }

  datatype NamedFormat = Email | Ip | Alnum | Hex

  /** `Format::FORMATS`, by symbol name. */
  const FORMATS: map<string, NamedFormat> :=
    map["email" := Email, "ip" := Ip, "alnum" := Alnum, "hex" := Hex]

  predicate Matches(f: NamedFormat, s: string)
  {
    match f
    case Email => IsEmail(s)
    case Ip => IsIp(s)
    case Alnum => IsAlnumString(s)
    case Hex => IsHexString(s)
  }

  /** An accepted address from format_spec.rb. */
  lemma IpAccepts()
    ensures IsIp("192.168.0.100")
  {
    IpAcceptsFirstGroup();
    IpAcceptsSecondGroup();
    assert IpTailAt("0.100", 1);
  }

  lemma IpAcceptsFirstGroup()
    ensures DottedGroup("192.168.0.100") && AfterGroup("192.168.0.100") == "168.0.100"
  {
    assert DigitRun("192.168.0.100") == 3 by {
      assert "192.168.0.100"[3] == '.';
      assert DigitRun("2.168.0.100") == 1;
    }
  }

  lemma IpAcceptsSecondGroup()
    ensures DottedGroup("168.0.100") && AfterGroup("168.0.100") == "0.100"
  {
    assert DigitRun("168.0.100") == 3 by {
      assert DigitRun("8.0.100") == 1;
    }
  }

  /** A rejected address from format_spec.rb: only three groups. */
  lemma IpRejectsThreeGroups()
    ensures !IsIp("11.12.13")
  {
    assert DigitRun("11.12.13") == 2 by {
      assert DigitRun("1.12.13") == 1;
    }
    assert AfterGroup("11.12.13") == "12.13";
    assert DigitRun("12.13") == 2 by {
      assert DigitRun("2.13") == 1;
    }
    assert AfterGroup("12.13") == "13";
    assert DigitRun("13") == 2 by {
      assert DigitRun("3") == 1;
    }
  }

  /** The third separator is an unescaped `.` and accepts any character. */
  lemma IpAnyThirdSeparator()
    ensures IsIp("1.2.3x4")
  {
    assert DigitRun("1.2.3x4") == 1;
    assert AfterGroup("1.2.3x4") == "2.3x4";
    assert DigitRun("2.3x4") == 1;
    assert AfterGroup("2.3x4") == "3x4";
    assert IpTailAt("3x4", 1);
  }

  /** The cases of format_spec.rb for `:alnum` and `:hex`. */
  lemma AlnumHexExamples()
    ensures IsAlnumString("peter12parker34") && !IsAlnumString("peter parker")
    ensures IsHexString("1a2b3c4d5e6f") && !IsHexString("7g8h9i0j")
  {
    assert !IsAlnum("peter parker"[5]);
    assert !IsHexDigit("7g8h9i0j"[1]);
  }
}
