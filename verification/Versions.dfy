/** Release versions and their comparison (proto.c). */
module Versions {
  import opened Bytes

  /** Each number is optional, as the protocol's has_ flags allow. */
  datatype Version = Version(major: Option<int>, minor: Option<int>, build: Option<int>)

  function Sign(a: int, b: int): int {
    if a > b then 1 else -1
  }

  /** proto_versionCmp: below an absent number nothing is compared any more. */
  function VersionCmp(a: Option<Version>, b: Option<Version>): (r: int)
    ensures -1 <= r <= 1
  {
    if a.None? then if b.None? then 0 else -1
    else if b.None? then 1
    else
      var a, b := a.value, b.value;
      if a.major.None? then if b.major.None? then 0 else -1
      else if b.major.None? then 1
      else if a.major != b.major then Sign(a.major.value, b.major.value)
      else if a.minor.None? then if b.minor.None? then 0 else -1
      else if b.minor.None? then 1
      else if a.minor != b.minor then Sign(a.minor.value, b.minor.value)
      else if a.build.None? then if b.build.None? then 0 else -1
      else if b.build.None? then 1
      else if a.build == b.build then 0
      else Sign(a.build.value, b.build.value)
  }

  /** The numbers that take part in comparisons: everything up to the first absent one. */
  function Significant(v: Option<Version>): seq<int> {
    if v.None? || v.value.major.None? then []
    else if v.value.minor.None? then [v.value.major.value]
    else if v.value.build.None? then [v.value.major.value, v.value.minor.value]
    else [v.value.major.value, v.value.minor.value, v.value.build.value]
  }

  predicate LexLess(a: seq<int>, b: seq<int>) {
    if b == [] then false
    else if a == [] then true
    else a[0] < b[0] || (a[0] == b[0] && LexLess(a[1..], b[1..]))
  }

  /** The comparison is the lexicographic order of the significant numbers, with an absent version below all. */
  lemma CmpIsLexicographic(a: Option<Version>, b: Option<Version>)
    ensures VersionCmp(a, b) == 1 <==> (a.Some? && b.None?) || (a.Some? && LexLess(Significant(b), Significant(a)))
    ensures VersionCmp(a, b) == 0 <==> a.Some? == b.Some? && Significant(a) == Significant(b)
  {
    if a.Some? && b.Some? {
      var s, t := Significant(a), Significant(b);
      if |s| > 0 && |t| > 0 {
        LexStep(t, s);
        if |s| > 1 && |t| > 1 {
          LexStep(t[1..], s[1..]);
        }
      }
    }
  }

  lemma LexStep(a: seq<int>, b: seq<int>)
    requires a != [] && b != []
    ensures LexLess(a, b) <==> a[0] < b[0] || (a[0] == b[0] && LexLess(a[1..], b[1..]))
  {
  }

  /** A total preorder: equivalent versions compare alike with everything, and the strict part is transitive. */
  lemma CmpTransitive(a: Option<Version>, b: Option<Version>, c: Option<Version>)
    ensures VersionCmp(b, a) == -VersionCmp(a, b)
    ensures VersionCmp(a, b) == 0 ==> VersionCmp(a, c) == VersionCmp(b, c)
    ensures VersionCmp(a, b) == 1 && VersionCmp(b, c) >= 0 ==> VersionCmp(a, c) == 1
  {
  }
}
