/** Matching a host name against a certificate's pattern (amqp_hostcheck.c; section 6.4.3 of RFC 6125).  A C string is
    the sequence of its characters without the terminating NUL. */
module HostCheck {
  import opened Bytes

  predicate CString(s: string) {
    '\0' !in s
  }

  /** amqp_raw_toupper: the twenty-six cases of its switch. */
  function Upper(c: char): (u: char)
    ensures u == '\0' <==> c == '\0'
  {
    if 'a' <= c <= 'z' then (c as int - 'a' as int + 'A' as int) as char else c
  }

  predicate SameLetters(s: string, t: string) {
    |s| == |t| && forall i | 0 <= i < |s| :: Upper(s[i]) == Upper(t[i])
  }

  /** The two cases of one ASCII letter, which are 32 apart. */
  predicate OneLetter(lower: char, upper: char) {
    'a' <= lower <= 'z' && 'A' <= upper <= 'Z' && lower as int == upper as int + 32
  }

  /** Characters are compared alike exactly when they are the same or the two cases of one letter. */
  lemma UpperAlike(c: char, d: char)
    ensures Upper(c) == Upper(d) <==> c == d || OneLetter(c, d) || OneLetter(d, c)
  {
  }

  function At(s: string, i: nat): char {
    if i < |s| then s[i] else '\0'
  }

  function Take(s: string, n: nat): string {
    if n < |s| then s[..n] else s
  }

  method RawEqual(first: string, second: string) returns (equal: bool)
    requires CString(first) && CString(second)
    ensures equal <==> SameLetters(first, second)
  {
    var i := 0;
    while At(first, i) != '\0' && At(second, i) != '\0'
      invariant i <= |first| && i <= |second|
      invariant forall j | 0 <= j < i :: Upper(first[j]) == Upper(second[j])
      decreases |first| - i
    {
      if Upper(first[i]) != Upper(second[i]) {
        break;
      }
      i := i + 1;
    }
    equal := Upper(At(first, i)) == Upper(At(second, i));
  }

  method RawNEqual(first: string, second: string, max0: nat) returns (equal: bool)
    requires CString(first) && CString(second)
    ensures equal <==> SameLetters(Take(first, max0), Take(second, max0))
  {
    var i, max := 0, max0;
    while At(first, i) != '\0' && At(second, i) != '\0' && max != 0
      invariant i <= |first| && i <= |second| && i + max == max0
      invariant forall j | 0 <= j < i :: Upper(first[j]) == Upper(second[j])
      decreases |first| - i
    {
      if Upper(first[i]) != Upper(second[i]) {
        break;
      }
      max := max - 1;
      i := i + 1;
    }
    ghost var s, t := Take(first, max0), Take(second, max0);
    if max == 0 {
      assert |s| == |t| == max0;
      return true;
    }
    equal := Upper(At(first, i)) == Upper(At(second, i));
    if !equal && i < |s| && i < |t| {
      assert Upper(s[i]) != Upper(t[i]);
    }
  }

  /** strchr */
  function Index(s: string, c: char): (i: Option<nat>)
    ensures i.Some? ==> i.value < |s| && s[i.value] == c && c !in s[..i.value]
    ensures i.None? ==> c !in s
  {
    if s == "" then None
    else if s[0] == c then Some(0)
    else
      var i := Index(s[1..], c);
      if i.None? then None
      else
        assert s[..i.value + 1] == [s[0]] + s[1..][..i.value];
        Some(i.value + 1)
  }

  // ----- what a wildcard covers -----

  function FirstLabel(s: string): string {
    var dot := Index(s, '.');
    if dot.None? then s else s[..dot.value]
  }

  /** The other labels, with the dot in front. */
  function Remaining(s: string): string {
    s[|FirstLabel(s)|..]
  }

  function Dots(s: string): nat {
    if s == "" then 0 else (if s[0] == '.' then 1 else 0) + Dots(s[1..])
  }

  /** A label a*b; a further asterisk in b stands for itself. */
  predicate WildLabel(part: string, a: string, b: string) {
    part == a + ['*'] + b && '*' !in a
  }

  predicate Covers(a: string, b: string, part: string, x: string, middle: string, y: string) {
    part == x + middle + y && middle != "" && SameLetters(a, x) && SameLetters(b, y)
  }

  ghost predicate WildcardMatch(pattern: string, host: string) {
    && Dots(pattern) >= 2 && '.' in host && !SameLetters(Take(pattern, 4), "xn--")
    && SameLetters(Remaining(pattern), Remaining(host))
    && SplitCovers(FirstLabel(pattern), FirstLabel(host))
  }

  lemma {:induction false} NoDots(s: string)
    ensures Dots(s) == 0 <==> '.' !in s
  {
    if s != "" {
      NoDots(s[1..]);
      assert s == [s[0]] + s[1..];
    }
  }

  /** Two dots: one, and another behind it. */
  lemma {:induction false} TwoDots(s: string)
    ensures Dots(s) >= 2 <==> Index(s, '.').Some? && Index(s[Index(s, '.').value + 1..], '.').Some?
  {
    if s != "" {
      if s[0] == '.' {
        NoDots(s[1..]);
      } else {
        TwoDots(s[1..]);
        if Index(s, '.').Some? {
          assert s[Index(s, '.').value + 1..] == s[1..][Index(s[1..], '.').value + 1..];
        }
      }
    }
  }

  ghost predicate SplitCovers(part: string, host: string) {
    exists a, b, x, middle, y :: WildLabel(part, a, b) && Covers(a, b, host, x, middle, y)
  }

  predicate Around(part: string, host: string, w: nat)
    requires w < |part| <= |host|
  {
    SameLetters(part[..w], host[..w]) && SameLetters(part[w + 1..], host[|host| - (|part| - w - 1)..])
  }

  /** The index test of the code, on the labels cut at their dots and the asterisk. */
  lemma SplitMatch(part: string, host: string, w: nat)
    requires w < |part| && part[w] == '*' && forall i | 0 <= i < w :: part[i] != '*'
    ensures SplitCovers(part, host) <==> |host| >= |part| && Around(part, host, w)
  {
    if SplitCovers(part, host) {
      var a, b, x, middle, y :| WildLabel(part, a, b) && Covers(a, b, host, x, middle, y);
      CoveredAround(part, host, w, a, b, x, middle, y);
    }
    if |host| >= |part| && Around(part, host, w) {
      AroundCovers(part, host, w);
    }
  }

  lemma CoveredAround(part: string, host: string, w: nat, a: string, b: string, x: string, middle: string, y: string)
    requires w < |part| && part[w] == '*' && forall i | 0 <= i < w :: part[i] != '*'
    requires WildLabel(part, a, b) && Covers(a, b, host, x, middle, y)
    ensures |host| >= |part| && Around(part, host, w)
  {
    SameSplit(part, w, a, b);
    assert host[..w] == x && host[|host| - |b|..] == y;
  }

  lemma AroundCovers(part: string, host: string, w: nat)
    requires w < |part| <= |host| && part[w] == '*' && (forall i | 0 <= i < w :: part[i] != '*') && Around(part, host, w)
    ensures SplitCovers(part, host)
  {
    var a, b, x, y := part[..w], part[w + 1..], host[..w], host[|host| - (|part| - w - 1)..];
    var middle := host[w..|host| - |b|];
    assert part == a + ['*'] + b && host == x + middle + y;
    hide SameLetters;
    assert WildLabel(part, a, b) && Covers(a, b, host, x, middle, y);
  }

  lemma SameSplit(part: string, w: nat, a: string, b: string)
    requires w < |part| && part[w] == '*' && WildLabel(part, a, b)
    requires forall i | 0 <= i < w :: part[i] != '*'
    ensures a == part[..w] && b == part[w + 1..]
  {
    assert part[|a|] == '*';
    assert w <= |a|;
    assert forall i | 0 <= i < |a| :: part[i] == a[i];
  }

  lemma HasAsterisk(part: string, a: string, b: string)
    requires WildLabel(part, a, b)
    ensures '*' in part
  {
    assert part[|a|] == '*';
  }

  lemma MatchNeedsAsterisk(pattern: string, host: string)
    ensures WildcardMatch(pattern, host) ==> '*' in FirstLabel(pattern)
  {
    if WildcardMatch(pattern, host) {
      var a, b, x, middle, y :| WildLabel(FirstLabel(pattern), a, b) && Covers(a, b, FirstLabel(host), x, middle, y);
      HasAsterisk(FirstLabel(pattern), a, b);
    }
  }

  lemma TakeSlice(s: string, i: nat, j: nat)
    requires i <= j <= |s|
    ensures Take(s[i..], j - i) == s[i..j] == s[..j][i..]
  {
  }

  // ----- the code -----

  /** A pattern that the code treats as one with a wildcard. */
  predicate WildcardForm(pattern: string) {
    && Dots(pattern) >= 2 && !SameLetters(Take(pattern, 4), "xn--")
    && '*' in FirstLabel(pattern)
  }

  /** Where the first asterisk stands tells whether it is in the first label. */
  lemma InFirstLabel(pattern: string)
    ensures var w, e := Index(pattern, '*'), Index(pattern, '.');
            '*' in FirstLabel(pattern) <==> w.Some? && (e.None? || w.value < e.value)
  {
    var w, e := Index(pattern, '*'), Index(pattern, '.');
    if w.Some? && e.Some? {
      if w.value < e.value {
        assert FirstLabel(pattern)[w.value] == '*';
      } else {
        assert FirstLabel(pattern) == pattern[..w.value][..e.value];
      }
    } else if e.Some? {
      assert '*' !in pattern[..e.value];
    }
  }

  lemma LabelsAt(s: string, e: nat)
    requires Index(s, '.') == Some(e)
    ensures e < |s| && '.' in s && FirstLabel(s) == s[..e] && Remaining(s) == s[e..]
  {
  }

  /** The wildcard branch. */
  method MatchLabels(hostname: string, pattern: string, wildcard: nat, labelEnd: nat) returns (matches: bool)
    requires CString(hostname) && CString(pattern) && WildcardForm(pattern)
    requires Index(pattern, '*') == Some(wildcard) && Index(pattern, '.') == Some(labelEnd) && wildcard < labelEnd
    ensures matches <==> WildcardMatch(pattern, hostname)
  {
    var hostEnd := Index(hostname, '.');
    if hostEnd.None? {
      return false;
    }
    LabelsAt(pattern, labelEnd);
    LabelsAt(hostname, hostEnd.value);
    ghost var part, host := FirstLabel(pattern), FirstLabel(hostname);
    assert forall i | 0 <= i < wildcard :: part[i] == pattern[..wildcard][i] != '*';
    SplitMatch(part, host, wildcard);
    hide Index, Dots, Take, SameLetters, FirstLabel, Remaining, Around, SplitCovers;
    var rest := RawEqual(pattern[labelEnd..], hostname[hostEnd.value..]);
    if !rest {
      return false;
    }
    if hostEnd.value < labelEnd {
      return false;
    }
    matches := MatchAround(hostname, pattern, wildcard, labelEnd, hostEnd.value);
  }

  /** The two length-limited comparisons, around the asterisk. */
  method MatchAround(hostname: string, pattern: string, wildcard: nat, labelEnd: nat, hostEnd: nat) returns (matches: bool)
    requires CString(hostname) && CString(pattern) && wildcard < labelEnd <= |pattern| && labelEnd <= hostEnd <= |hostname|
    ensures var part, host := pattern[..labelEnd], hostname[..hostEnd];
            matches <==> Around(part, host, wildcard)
  {
    hide SameLetters, Take;
    var prefixlen := wildcard;
    var suffixlen := labelEnd - (wildcard + 1);
    TakeSlice(pattern, 0, wildcard);
    TakeSlice(hostname, 0, wildcard);
    TakeSlice(pattern, wildcard + 1, labelEnd);
    TakeSlice(hostname, hostEnd - suffixlen, hostEnd);
    var prefix := RawNEqual(pattern, hostname, prefixlen);
    var suffix := RawNEqual(pattern[wildcard + 1..], hostname[hostEnd - suffixlen..], suffixlen);
    assert pattern[0..] == pattern && hostname[0..] == hostname;
    assert pattern[..labelEnd][..wildcard] == pattern[0..wildcard] && hostname[..hostEnd][..wildcard] == hostname[0..wildcard];
    matches := prefix && suffix;
  }

  method HostMatch(hostname: string, pattern: string) returns (matches: bool)
    requires CString(hostname) && CString(pattern)
    ensures matches <==> WildcardMatch(pattern, hostname) || (SameLetters(pattern, hostname) && !WildcardForm(pattern))
  {
    MatchNeedsAsterisk(pattern, hostname);
    InFirstLabel(pattern);
    TwoDots(pattern);
    hide SameLetters, Take, Dots, FirstLabel;
    var wildcard := Index(pattern, '*');
    if wildcard.None? {
      matches := RawEqual(pattern, hostname);
      return;
    }
    var labelEnd := Index(pattern, '.');
    var international := RawNEqual(pattern, "xn--", 4);
    assert Take("xn--", 4) == "xn--" by { TakeAll(); }
    if labelEnd.None? || Index(pattern[labelEnd.value + 1..], '.').None? || wildcard.value > labelEnd.value || international {
      matches := RawEqual(pattern, hostname);
      return;
    }
    matches := MatchLabels(hostname, pattern, wildcard.value, labelEnd.value);
  }

  lemma TakeAll()
    ensures Take("xn--", 4) == "xn--"
  {
  }

  /** amqp_hostcheck: equal ignoring case, or a wildcard in the first label. */
  method Check(pattern: string, hostname: string) returns (matches: bool)
    requires CString(hostname) && CString(pattern)
    ensures matches <==> pattern != "" && hostname != "" && (SameLetters(pattern, hostname) || WildcardMatch(pattern, hostname))
  {
    if pattern == "" || hostname == "" {
      return false;
    }
    var equal := RawEqual(hostname, pattern);
    if equal {
      return true;
    }
    matches := HostMatch(hostname, pattern);
  }
}
