/**
 * The Python `str` operations the game code relies on, stated over `seq<char>`:
 * `strip`/`lstrip`, ASCII `lower`/`upper`/`capitalize`, `startswith`,
 * `sep in s`, `s.split(sep, 1)` and `s.split(d)` with its inverse `d.join(parts)`.
 */
module Text {
  import opened Opt

  /** Python 3's `str.isspace()` for one character: the characters `strip()` removes. */
  predicate IsSpace(c: char) {
    ('\t' <= c <= '\r') || ('\U{1C}' <= c <= '\U{1F}') || c == ' ' || c == '\U{85}' || c == '\U{A0}'
    || c == '\U{1680}' || ('\U{2000}' <= c <= '\U{200A}') || c == '\U{2028}' || c == '\U{2029}'
    || c == '\U{202F}' || c == '\U{205F}' || c == '\U{3000}'
  }

  /** `s.lstrip()`: `s` without its leading whitespace (a suffix of `s`, see `LStripSuffix`). */
  function LStrip(s: string): (r: string)
    ensures |r| <= |s|
    ensures r != [] ==> !IsSpace(r[0])
    decreases |s|
  {
    if s != [] && IsSpace(s[0]) then LStrip(s[1..]) else s
  }

  /** `s.rstrip()`: `s` without its trailing whitespace (a prefix of `s`, see `RStripPrefix`). */
  function RStrip(s: string): (r: string)
    ensures |r| <= |s|
    ensures r != [] ==> !IsSpace(r[|r| - 1])
    decreases |s|
  {
    if s != [] && IsSpace(s[|s| - 1]) then RStrip(s[..|s| - 1]) else s
  }

  /** What `lstrip` leaves is the rest of `s` after the whitespace it removes, and all it removes is whitespace. */
  lemma {:induction false} LStripSuffix(s: string)
    ensures LStrip(s) == s[|s| - |LStrip(s)|..]
    ensures forall i :: 0 <= i < |s| - |LStrip(s)| ==> IsSpace(s[i])
    decreases |s|
  {
    if s != [] && IsSpace(s[0]) {
      LStripSuffix(s[1..]);
      assert s[1..][|s| - 1 - |LStrip(s)|..] == s[|s| - |LStrip(s)|..];
      forall i | 1 <= i < |s| - |LStrip(s)| ensures IsSpace(s[i]) {
        assert s[i] == s[1..][i - 1];
      }
    }
  }

  /** What `rstrip` leaves is `s` up to the whitespace it removes, and all it removes is whitespace. */
  lemma {:induction false} RStripPrefix(s: string)
    ensures RStrip(s) == s[..|RStrip(s)|]
    ensures forall i :: |RStrip(s)| <= i < |s| ==> IsSpace(s[i])
    decreases |s|
  {
    if s != [] && IsSpace(s[|s| - 1]) {
      RStripPrefix(s[..|s| - 1]);
      assert s[..|s| - 1][..|RStrip(s)|] == s[..|RStrip(s)|];
      forall i | |RStrip(s)| <= i < |s| - 1 ensures IsSpace(s[i]) {
        assert s[i] == s[..|s| - 1][i];
      }
    }
  }

  /** Number of whitespace characters `lstrip` removes from the front of `s`. */
  function Lead(s: string): nat
    ensures Lead(s) <= |s|
  {
    |s| - |LStrip(s)|
  }

  /**
   * `s.strip()`: `s` with whitespace removed at both ends; it neither starts nor
   * ends with whitespace, and it is the slice of `s` that `StripSlice` names.
   */
  function Strip(s: string): (r: string)
    ensures Lead(s) + |r| <= |s|
    ensures r != [] ==> !IsSpace(r[0]) && !IsSpace(r[|r| - 1])
  {
    var l := LStrip(s);
    RStripPrefix(l);
    RStrip(l)
  }

  /** `strip` keeps a slice of `s`: the part after the leading whitespace, up to the trailing whitespace. */
  lemma StripSlice(s: string)
    ensures Strip(s) == s[Lead(s)..Lead(s) + |Strip(s)|]
  {
    var l := LStrip(s);
    LStripSuffix(s);
    RStripPrefix(l);
    assert s[Lead(s)..][..|Strip(s)|] == s[Lead(s)..Lead(s) + |Strip(s)|];
  }

  /** Everything `strip` cuts away is whitespace. */
  lemma StripRemovesOnlySpace(s: string)
    ensures forall i :: 0 <= i < Lead(s) || Lead(s) + |Strip(s)| <= i < |s| ==> IsSpace(s[i])
  {
    var n := Lead(s);
    var l := LStrip(s);
    var r := RStrip(l);
    LStripSuffix(s);
    RStripPrefix(l);
    assert r == Strip(s);
    forall i | n + |r| <= i < |s| ensures IsSpace(s[i]) {
      assert s[i] == l[i - n];
    }
  }

  /** `strip` yields "" exactly for blank text. */
  lemma StripBlank(s: string)
    ensures Strip(s) == [] <==> forall i :: 0 <= i < |s| ==> IsSpace(s[i])
  {
    var l := LStrip(s);
    LStripSuffix(s);
    RStripPrefix(l);
    if l != [] {
      assert l[0] == s[|s| - |l|] && !IsSpace(l[0]);
    }
  }

  /** Stripping twice is stripping once. */
  lemma StripIdempotent(s: string)
    ensures Strip(Strip(s)) == Strip(s)
  {
    var r := Strip(s);
    assert r != [] ==> !IsSpace(r[0]);
    assert LStrip(r) == r;
    assert r != [] ==> !IsSpace(r[|r| - 1]);
    assert RStrip(r) == r;
  }

  /** ASCII `c.lower()`. */
  function LowerChar(c: char): char {
    if 'A' <= c <= 'Z' then (c as int + 32) as char else c
  }

  /** ASCII `c.upper()`. */
  function UpperChar(c: char): char {
    if 'a' <= c <= 'z' then (c as int - 32) as char else c
  }

  /** ASCII `s.lower()`. */
  function Lower(s: string): string {
    seq(|s|, i requires 0 <= i < |s| => LowerChar(s[i]))
  }

  /** ASCII `s.upper()`. */
  function Upper(s: string): string {
    seq(|s|, i requires 0 <= i < |s| => UpperChar(s[i]))
  }

  /** ASCII `s.capitalize()`: first character upper case, the rest lower case. */
  function Capitalize(s: string): string {
    if s == [] then [] else [UpperChar(s[0])] + Lower(s[1..])
  }

  /** `s.startswith(p)`. */
  predicate StartsWith(s: string, p: string) {
    |p| <= |s| && s[..|p|] == p
  }

  /** `pat` occurs in `s` starting at index `i`. */
  predicate OccursAt(s: string, pat: string, i: nat) {
    i + |pat| <= |s| && s[i..i + |pat|] == pat
  }

  /** `s.find(pat, i)`, as an option: the first occurrence of `pat` in `s` at or after `i`. */
  function FindFrom(s: string, pat: string, i: nat): (r: Option<nat>)
    requires i <= |s|
    ensures r.Some? ==> i <= r.value && OccursAt(s, pat, r.value)
    ensures r.Some? ==> forall j :: i <= j < r.value ==> !OccursAt(s, pat, j)
    ensures r.None? ==> forall j :: i <= j <= |s| ==> !OccursAt(s, pat, j)
    decreases |s| - i
  {
    if OccursAt(s, pat, i) then Some(i)
    else if i == |s| then None
    else FindFrom(s, pat, i + 1)
  }

  /** `pat in s`. */
  predicate Contains(s: string, pat: string) {
    FindFrom(s, pat, 0).Some?
  }

  /**
   * `s.split(sep, 1)` unpacked into two names: `None` where Python's unpacking
   * raises `ValueError` (the separator is absent), otherwise the text before and
   * after the FIRST occurrence of `sep`.
   */
  function SplitOnce(s: string, sep: string): (r: Option<(string, string)>)
    requires sep != []
    ensures r.None? <==> !Contains(s, sep)
    ensures r.Some? ==> r.value.0 + sep + r.value.1 == s
  {
    match FindFrom(s, sep, 0)
    case None => None
    case Some(i) =>
      assert s[..i] + sep + s[i + |sep|..] == s by {
        assert s == s[..i] + s[i..i + |sep|] + s[i + |sep|..];
      }
      Some((s[..i], s[i + |sep|..]))
  }

  /** `split(sep, 1)` cuts at the first occurrence: `sep` starts nowhere before the cut. */
  lemma SplitOnceAtFirst(s: string, sep: string)
    requires sep != [] && SplitOnce(s, sep).Some?
    ensures forall j :: 0 <= j < |SplitOnce(s, sep).value.0| ==> !OccursAt(s, sep, j)
  {
  }

  /** An occurrence makes `Contains` true. */
  lemma OccursFound(s: string, pat: string, i: nat)
    requires OccursAt(s, pat, i)
    ensures Contains(s, pat)
  {
  }

  /** An occurrence inside a slice is an occurrence in the whole text. */
  lemma OccursInSlice(s: string, pat: string, a: nat, b: nat, k: nat)
    requires a <= b <= |s| && OccursAt(s[a..b], pat, k)
    ensures OccursAt(s, pat, a + k)
  {
    var t := s[a..b];
    forall j | k <= j < k + |pat| ensures t[j] == s[a + j] { }
    assert t[k..k + |pat|] == s[a + k..a + k + |pat|];
  }

  /** A one-character pattern occurs exactly where that character does. */
  lemma NoCharNoMatch(s: string, c: char)
    requires c !in s
    ensures !Contains(s, [c])
  {
    if Contains(s, [c]) {
      var k := FindFrom(s, [c], 0).value;
      OccursChar(s, c, k);
      assert false;
    }
  }

  /** A one-character pattern occurs at `k` when that character stands at `k`. */
  lemma OccursChar(s: string, c: char, k: nat)
    requires OccursAt(s, [c], k)
    ensures k < |s| && s[k] == c
  {
    assert s[k] == s[k..k + 1][0];
  }

  /** A slice of a text without `pat` holds no `pat` either. */
  lemma SliceLacks(s: string, pat: string, a: nat, b: nat)
    requires a <= b <= |s| && !Contains(s, pat)
    ensures !Contains(s[a..b], pat)
  {
    if Contains(s[a..b], pat) {
      var k := FindFrom(s[a..b], pat, 0).value;
      OccursInSlice(s, pat, a, b, k);
      assert false;
    }
  }

  /** The text before the first `sep` holds no `sep`. */
  lemma HeadLacksSeparator(s: string, sep: string)
    requires sep != [] && SplitOnce(s, sep).Some?
    ensures !Contains(SplitOnce(s, sep).value.0, sep)
  {
    var head := SplitOnce(s, sep).value.0;
    if Contains(head, sep) {
      var k := FindFrom(head, sep, 0).value;
      assert head == s[..|head|];
      OccursInSlice(s, sep, 0, |head|, k);
      SplitOnceAtFirst(s, sep);
      assert false;
    }
  }

  /**
   * `split(sep, 1)` cuts `head + sep + tail` right after `head` when no `sep`
   * starts inside `head` (that is, none lies within `head` and the first
   * `|sep| - 1` characters of `sep`).
   */
  lemma SplitOnceAt(head: string, sep: string, tail: string)
    requires sep != [] && !Contains(head + sep[..|sep| - 1], sep)
    ensures SplitOnce(head + sep + tail, sep) == Some((head, tail))
  {
    var s := head + sep + tail;
    assert OccursAt(s, sep, |head|) by {
      assert s[|head|..|head| + |sep|] == sep;
    }
    var i := FindFrom(s, sep, 0).value;
    OccursNotInHead(head, sep, tail, i);
    assert s[..|head|] == head && s[|head| + |sep|..] == tail;
  }

  /** In `head + sep + tail`, no `sep` starts inside `head` when none lies within `head` and `sep`'s first `|sep| - 1` characters. */
  lemma OccursNotInHead(head: string, sep: string, tail: string, i: nat)
    requires sep != [] && !Contains(head + sep[..|sep| - 1], sep)
    requires OccursAt(head + sep + tail, sep, i)
    ensures i >= |head|
  {
    if i < |head| {
      var s := head + sep + tail;
      var pre := head + sep[..|sep| - 1];
      assert pre == s[..|head| + |sep| - 1];
      assert OccursAt(pre, sep, i) by {
        assert pre[i..i + |sep|] == s[i..i + |sep|];
      }
      OccursFound(pre, sep, i);
    }
  }

  /** Index of the first `d` in `s`. */
  function IndexOf(s: string, d: char): (i: nat)
    requires d in s
    ensures i < |s| && s[i] == d && d !in s[..i]
  {
    if s[0] == d then 0
    else
      var j := IndexOf(s[1..], d);
      assert s[..j + 1] == [s[0]] + s[1..][..j];
      j + 1
  }

  /** `s.split(d)` for a one-character separator: never empty, no part holds `d`. */
  function Split(s: string, d: char): (parts: seq<string>)
    ensures |parts| >= 1
    ensures forall k :: 0 <= k < |parts| ==> d !in parts[k]
    decreases |s|
  {
    if d !in s then [s]
    else
      var i := IndexOf(s, d);
      [s[..i]] + Split(s[i + 1..], d)
  }

  /** `d.join(parts)`. */
  function Join(parts: seq<string>, d: char): string {
    if |parts| == 0 then []
    else if |parts| == 1 then parts[0]
    else parts[0] + [d] + Join(parts[1..], d)
  }

  /** Splitting and joining again gives back the text: nothing is lost or reordered. */
  lemma {:induction false} JoinSplit(s: string, d: char)
    ensures Join(Split(s, d), d) == s
    decreases |s|
  {
    if d in s {
      var i := IndexOf(s, d);
      var rest := Split(s[i + 1..], d);
      JoinSplit(s[i + 1..], d);
      assert Split(s, d) == [s[..i]] + rest;
      assert ([s[..i]] + rest)[1..] == rest;
      assert s == s[..i] + [d] + s[i + 1..];
    }
  }

  /** The first `d` of `a + [d] + b` is the one after `a` when `a` holds none. */
  lemma IndexOfAfter(a: string, b: string, d: char)
    requires d !in a
    ensures d in a + [d] + b && IndexOf(a + [d] + b, d) == |a|
    decreases |a|
  {
    var s := a + [d] + b;
    assert s[|a|] == d;
    if a != [] {
      assert s[1..] == a[1..] + [d] + b;
      IndexOfAfter(a[1..], b, d);
    }
  }

  /** Splitting `a + [d] + b`, where `a` holds no `d`, yields `a` and then the parts of `b`. */
  lemma SplitAfter(a: string, b: string, d: char)
    requires d !in a
    ensures Split(a + [d] + b, d) == [a] + Split(b, d)
  {
    var s := a + [d] + b;
    IndexOfAfter(a, b, d);
    assert s[..|a|] == a;
    assert s[|a| + 1..] == b;
  }

  /** Joining parts that hold no separator and splitting again gives back the parts. */
  lemma {:induction false} SplitJoin(parts: seq<string>, d: char)
    requires |parts| >= 1
    requires forall k :: 0 <= k < |parts| ==> d !in parts[k]
    ensures Split(Join(parts, d), d) == parts
    decreases |parts|
  {
    if |parts| > 1 {
      var tail := Join(parts[1..], d);
      assert Join(parts, d) == parts[0] + [d] + tail;
      SplitAfter(parts[0], tail, d);
      SplitJoin(parts[1..], d);
      assert parts == [parts[0]] + parts[1..];
    }
  }
}
