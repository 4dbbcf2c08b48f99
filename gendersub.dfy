/**
 * Gendered pronoun substitution (world/gendersub.py): the pronoun table, the
 * `|s |o |p |a` markers (upper case for a capitalised pronoun, `||` to escape),
 * the `GenderCharacter` that rewrites what it receives, and the `@gender` command.
 */
module GenderSub {
  import opened Opt
  import opened Text
  import opened Messages

  /** The four forms per gender: subjective `s`, objective `o`, possessive `p`, absolute possessive `a`. */
  const PronounMap: map<string, map<char, string>> := map[
    "male" := map['s' := "he", 'o' := "him", 'p' := "his", 'a' := "his"],
    "female" := map['s' := "she", 'o' := "her", 'p' := "her", 'a' := "hers"],
    "neutral" := map['s' := "it", 'o' := "it", 'p' := "its", 'a' := "its"],
    "ambiguous" := map['s' := "they", 'o' := "them", 'p' := "their", 'a' := "theirs"]
  ]

  const Ambiguous := "ambiguous"

  /** The letters that may follow `|` in a marker. */
  predicate IsKind(c: char) {
    c in "sSoOpPaA"
  }

  /**
   * The gender whose forms are used: the stored one when it is male, female or
   * neutral, otherwise (unset, ambiguous or anything else) the ambiguous forms.
   */
  function NormalGender(gender: Option<string>): (g: string)
    ensures g in PronounMap
    ensures gender.Some? && gender.value in PronounMap ==> g == gender.value
    ensures gender.None? || gender.value !in {"male", "female", "neutral"} ==> g == Ambiguous
  {
    if gender.Some? && gender.value in {"male", "female", "neutral"} then gender.value else Ambiguous
  }

  /** A non-empty run of lower-case letters. */
  predicate LowerWord(p: string) {
    p != [] && forall k :: 0 <= k < |p| ==> 'a' <= p[k] <= 'z'
  }

  /** Every gender of the table has all four forms, each a lower-case word. */
  lemma TableWords(g: string, c: char)
    requires g in PronounMap && c in "sopa"
    ensures c in PronounMap[g] && LowerWord(PronounMap[g][c])
  {
    var forms := PronounMap[g];
    assert forms.Keys == {'s', 'o', 'p', 'a'};
    var w := forms[c];
    assert w in {"he", "him", "his", "she", "her", "hers", "it", "its", "they", "them", "their", "theirs"};
  }

  /** `_get_pronoun`: the table entry for the marker letter, capitalised for an upper-case letter. */
  function Pronoun(gender: Option<string>, kind: char): (r: string)
    requires IsKind(kind)
    ensures 'a' <= kind <= 'z' ==> r == PronounMap[NormalGender(gender)][kind]
  {
    var c := LowerChar(kind);
    TableWords(NormalGender(gender), c);
    var p := PronounMap[NormalGender(gender)][c];
    if 'A' <= kind <= 'Z' then Capitalize(p) else p
  }

  /** A capitalised lower-case word is a word of letters of the same length, its tail unchanged. */
  lemma CapitalizeWord(p: string)
    requires LowerWord(p)
    ensures |Capitalize(p)| == |p| && Capitalize(p)[1..] == p[1..]
    ensures 'A' <= Capitalize(p)[0] <= 'Z'
  {
    var t := p[1..];
    assert Lower(t) == t;
  }

  /** Every pronoun is a non-empty run of letters, so it never holds or completes a marker. */
  lemma PronounIsWord(gender: Option<string>, kind: char)
    requires IsKind(kind)
    ensures Pronoun(gender, kind) != []
    ensures forall k :: 0 <= k < |Pronoun(gender, kind)| ==> Pronoun(gender, kind)[k] != '|'
  {
    var c := LowerChar(kind);
    TableWords(NormalGender(gender), c);
    var p := PronounMap[NormalGender(gender)][c];
    if 'A' <= kind <= 'Z' {
      CapitalizeWord(p);
      var r := Capitalize(p);
      forall k | 0 <= k < |r| ensures r[k] != '|' {
        if k > 0 {
          assert r[k] == r[1..][k - 1] == p[k];
        }
      }
    }
  }

  /** An unset or unrecognised gender reads as they / them / their / theirs. */
  lemma AmbiguousFallback(gender: Option<string>)
    requires gender.None? || gender.value !in {"male", "female", "neutral"}
    ensures Pronoun(gender, 's') == "they" && Pronoun(gender, 'o') == "them"
    ensures Pronoun(gender, 'p') == "their" && Pronoun(gender, 'a') == "theirs"
  {
  }

  /** The upper-case marker gives the lower-case marker's pronoun with its first letter capitalised. */
  lemma UpperMarkerCapitalises(gender: Option<string>, kind: char)
    requires kind in "sopa"
    ensures IsKind(UpperChar(kind))
    ensures Pronoun(gender, UpperChar(kind)) == [UpperChar(Pronoun(gender, kind)[0])] + Pronoun(gender, kind)[1..]
  {
    var up := UpperChar(kind);
    assert LowerChar(up) == kind && LowerChar(kind) == kind && 'A' <= up <= 'Z';
    TableWords(NormalGender(gender), kind);
    var p := PronounMap[NormalGender(gender)][kind];
    CapitalizeWord(p);
  }

  /**
   * A marker at `i`: `|` followed by a marker letter, and not preceded by `|`;
   * `afterBar` says whether a `|` comes just before `s` begins.
   */
  predicate MarkerAt(s: string, i: nat, afterBar: bool) {
    i + 1 < |s| && s[i] == '|' && IsKind(s[i + 1]) && !(if i == 0 then afterBar else s[i - 1] == '|')
  }

  /**
   * The regular-expression substitution, scanning left to right: a marker is
   * replaced by what the callback `pronoun` gives for its letter and scanning
   * resumes after it; any other character is kept.
   */
  function Sub(s: string, afterBar: bool, pronoun: char -> string): (r: string)
    ensures |s| < 2 ==> r == s
    ensures s != [] && s[0] != '|' ==> r != [] && r[0] == s[0]
    decreases |s|
  {
    if s == [] then []
    else if MarkerAt(s, 0, afterBar) then pronoun(s[1]) + Sub(s[2..], false, pronoun)
    else [s[0]] + Sub(s[1..], s[0] == '|', pronoun)
  }

  /** `self._get_pronoun` as the callback of the substitution. */
  function PronounOf(gender: Option<string>): char -> string {
    k => if IsKind(k) then Pronoun(gender, k) else [k]
  }

  /** `_RE_GENDER_PRONOUN.sub(self._get_pronoun, s)`. */
  function Substitute(s: string, gender: Option<string>): (r: string)
    ensures '|' !in s ==> r == s
  {
    if '|' !in s then
      NoBarUnchanged(s, false, PronounOf(gender));
      Sub(s, false, PronounOf(gender))
    else Sub(s, false, PronounOf(gender))
  }

  /** No replacement for a marker letter holds a `|`. */
  ghost predicate BarFree(pronoun: char -> string) {
    forall k :: IsKind(k) ==> '|' !in pronoun(k)
  }

  /** The pronouns of every gender are bar-free. */
  lemma PronounsBarFree(gender: Option<string>)
    ensures BarFree(PronounOf(gender))
  {
    forall k | IsKind(k) ensures '|' !in PronounOf(gender)(k) {
      PronounIsWord(gender, k);
    }
  }

  /** Text in which no marker occurs comes back unchanged. */
  lemma {:induction false} NoMarkerUnchanged(s: string, afterBar: bool, pronoun: char -> string)
    requires forall i :: 0 <= i < |s| ==> !MarkerAt(s, i, afterBar)
    ensures Sub(s, afterBar, pronoun) == s
    decreases |s|
  {
    if s != [] {
      var t := s[1..];
      var bar := s[0] == '|';
      forall i | 0 <= i < |t| ensures !MarkerAt(t, i, bar) {
        assert !MarkerAt(s, i + 1, afterBar);
      }
      NoMarkerUnchanged(t, bar, pronoun);
    }
  }

  /** Text without any `|` comes back unchanged. */
  lemma NoBarUnchanged(s: string, afterBar: bool, pronoun: char -> string)
    requires '|' !in s
    ensures Sub(s, afterBar, pronoun) == s
  {
    forall i | 0 <= i < |s| ensures !MarkerAt(s, i, afterBar) {
      assert s[i] in s;
    }
    NoMarkerUnchanged(s, afterBar, pronoun);
  }

  /**
   * Substitution is local: text that does not end in `|` is rewritten on its own,
   * and what follows it is rewritten as if it stood at the start.
   */
  lemma {:induction false} SubConcat(a: string, b: string, afterBar: bool, pronoun: char -> string)
    requires a != [] && a[|a| - 1] != '|'
    ensures Sub(a + b, afterBar, pronoun) == Sub(a, afterBar, pronoun) + Sub(b, false, pronoun)
    decreases |a|, 1
  {
    if MarkerAt(a, 0, afterBar) {
      SubConcatMarker(a, b, afterBar, pronoun);
    } else {
      SubConcatKept(a, b, afterBar, pronoun);
    }
  }

  /** `SubConcat` when `a` opens with a marker. */
  lemma {:induction false} SubConcatMarker(a: string, b: string, afterBar: bool, pronoun: char -> string)
    requires a != [] && a[|a| - 1] != '|' && MarkerAt(a, 0, afterBar)
    ensures Sub(a + b, afterBar, pronoun) == Sub(a, afterBar, pronoun) + Sub(b, false, pronoun)
    decreases |a|, 0
  {
    var s := a + b;
    assert MarkerAt(s, 0, afterBar) && s[2..] == a[2..] + b;
    if |a| > 2 {
      SubConcat(a[2..], b, false, pronoun);
    } else {
      assert a[2..] == [] && a[2..] + b == b;
    }
  }

  /** `SubConcat` when `a` opens with a character that is kept. */
  lemma {:induction false} SubConcatKept(a: string, b: string, afterBar: bool, pronoun: char -> string)
    requires a != [] && a[|a| - 1] != '|' && !MarkerAt(a, 0, afterBar)
    ensures Sub(a + b, afterBar, pronoun) == Sub(a, afterBar, pronoun) + Sub(b, false, pronoun)
    decreases |a|, 0
  {
    var s := a + b;
    assert !MarkerAt(s, 0, afterBar) && s[1..] == a[1..] + b;
    if |a| == 1 {
      assert a[1..] == [] && a[1..] + b == b;
    } else {
      SubConcat(a[1..], b, a[0] == '|', pronoun);
    }
  }

  /** Bar-free text in front is kept as it is, and what follows is rewritten on its own. */
  lemma BarFreePrefix(pre: string, m: string, gender: Option<string>)
    requires '|' !in pre
    ensures Substitute(pre + m, gender) == pre + Substitute(m, gender)
  {
    if pre != [] {
      assert pre[|pre| - 1] in pre;
      SubConcat(pre, m, false, PronounOf(gender));
      NoBarUnchanged(pre, false, PronounOf(gender));
    } else {
      assert pre + m == m;
    }
  }

  /** A marker after bar-free text is replaced by the pronoun; the rest is rewritten on its own. */
  lemma MarkerReplaced(pre: string, kind: char, rest: string, gender: Option<string>)
    requires '|' !in pre && IsKind(kind)
    ensures Substitute(pre + ['|', kind] + rest, gender) == pre + Pronoun(gender, kind) + Substitute(rest, gender)
  {
    var m := ['|', kind] + rest;
    var p := Pronoun(gender, kind);
    var t := Substitute(rest, gender);
    assert Substitute(m, gender) == p + t by {
      MarkerSub(kind, rest, PronounOf(gender));
    }
    assert Substitute(pre + m, gender) == pre + (p + t) by {
      BarFreePrefix(pre, m, gender);
    }
    assert pre + ['|', kind] + rest == pre + m;
    assert pre + (p + t) == pre + p + t;
  }

  /** A marker at the start is replaced by the callback's text for its letter. */
  lemma MarkerSub(kind: char, rest: string, pronoun: char -> string)
    requires IsKind(kind)
    ensures Sub(['|', kind] + rest, false, pronoun) == pronoun(kind) + Sub(rest, false, pronoun)
  {
    var m := ['|', kind] + rest;
    assert MarkerAt(m, 0, false) && m[1] == kind && m[2..] == rest;
  }

  /** `||` before a letter is no marker: the two bars and the letter are kept. */
  lemma EscapedSub(kind: char, rest: string, pronoun: char -> string)
    requires IsKind(kind)
    ensures Sub(['|', '|', kind] + rest, false, pronoun) == ['|', '|', kind] + Sub(rest, false, pronoun)
  {
    var m := ['|', '|', kind] + rest;
    var m1 := ['|', kind] + rest;
    var m2 := [kind] + rest;
    assert !MarkerAt(m, 0, false) && m[1..] == m1;
    assert !MarkerAt(m1, 0, true) && m1[1..] == m2;
    assert m2[0] != '|' && m2[1..] == rest;
    assert Sub(m2, true, pronoun) == [kind] + Sub(rest, false, pronoun);
    assert Sub(m1, true, pronoun) == ['|'] + Sub(m2, true, pronoun);
  }

  /** `||` escapes a marker: the two bars and the letter are kept as they are. */
  lemma EscapedMarkerKept(pre: string, kind: char, rest: string, gender: Option<string>)
    requires '|' !in pre && IsKind(kind)
    ensures Substitute(pre + ['|', '|', kind] + rest, gender) == pre + ['|', '|', kind] + Substitute(rest, gender)
  {
    var e := ['|', '|', kind];
    var m := e + rest;
    var t := Substitute(rest, gender);
    assert Substitute(m, gender) == e + t by {
      EscapedSub(kind, rest, PronounOf(gender));
    }
    assert Substitute(pre + m, gender) == pre + (e + t) by {
      BarFreePrefix(pre, m, gender);
    }
    assert pre + e + rest == pre + m;
    assert pre + (e + t) == pre + e + t;
  }

  /** Substituting again changes nothing when no replacement holds a `|`: no marker is left to replace. */
  lemma {:induction false} SubIdempotent(s: string, afterBar: bool, pronoun: char -> string)
    requires BarFree(pronoun)
    ensures Sub(Sub(s, afterBar, pronoun), afterBar, pronoun) == Sub(s, afterBar, pronoun)
    decreases |s|
  {
    if s == [] {
    } else if MarkerAt(s, 0, afterBar) {
      var p := pronoun(s[1]);
      var y := Sub(s[2..], false, pronoun);
      assert '|' !in p;
      SubIdempotent(s[2..], false, pronoun);
      if p == [] {
        assert p + y == y;
      } else {
        assert p[|p| - 1] in p;
        SubConcat(p, y, afterBar, pronoun);
        NoBarUnchanged(p, afterBar, pronoun);
      }
    } else if s[0] != '|' {
      var y := Sub(s[1..], false, pronoun);
      SubConcat([s[0]], y, afterBar, pronoun);
      SubIdempotent(s[1..], false, pronoun);
    } else {
      var y := Sub(s[1..], true, pronoun);
      SubIdempotent(s[1..], true, pronoun);
      if |s| >= 2 {
        assert !MarkerAt(s[1..], 0, true);
        assert y[0] == s[1];
      }
      assert !MarkerAt(['|'] + y, 0, afterBar);
      assert (['|'] + y)[1..] == y;
    }
  }

  /** `GenderCharacter.msg` rewriting a text a second time changes nothing. */
  lemma SubstituteIdempotent(s: string, gender: Option<string>)
    ensures Substitute(Substitute(s, gender), gender) == Substitute(s, gender)
  {
    PronounsBarFree(gender);
    SubIdempotent(s, false, PronounOf(gender));
  }

  /** What `GenderCharacter.msg` passes on: only a tuple's first element is rewritten, the rest kept. */
  function Rewrite(text: MsgText, gender: Option<string>): (r: MsgText)
    ensures r.Plain? <==> text.Plain?
    ensures text.Tuple? ==> |r.items| == |text.items|
    ensures text.Tuple? && text.items != [] ==>
              r.items[0] == Substitute(text.items[0], gender) && r.items[1..] == text.items[1..]
  {
    match text
    case Plain(s) => Plain(Substitute(s, gender))
    // An empty tuple is falsy; substituting on it raises TypeError, which is swallowed.
    case Tuple(items) => if items == [] then text else Tuple([Substitute(items[0], gender)] + items[1..])
  }

  /** `GenderCharacter`: its gender attribute and every text its `msg` hook passed on. */
  class GenderCharacter {
    /** `db.gender`; `None` when the attribute is unset. */
    var gender: Option<string>
    /** What reached the base `msg`, oldest first; `None` is a call without text. */
    var received: seq<Option<MsgText>>

    /** `at_object_creation`: the gender starts out ambiguous. */
    constructor ()
      ensures gender == Some(Ambiguous) && received == []
    {
      gender := Some(Ambiguous);
      received := [];
    }

    /** `msg`: no text bypasses substitution; any other text is rewritten for this character's gender. */
    method Msg(text: Option<MsgText>)
      modifies this`received
      ensures received == old(received) + [if text.None? then None else Some(Rewrite(text.value, gender))]
    {
      if text.None? {
        received := received + [None];
        return;
      }
      var out: MsgText;
      match text.value {
        case Tuple(items) =>
          if items != [] {
            out := Tuple([Substitute(items[0], gender)] + items[1..]);
          } else {
            out := text.value;
          }
        case Plain(s) =>
          out := Plain(Substitute(s, gender));
      }
      received := received + [Some(out)];
    }
  }

  /** What `caller.search(name, quiet=True)` yields: nothing, something that is not a character, or a character. */
  datatype Found = NoMatch | NotCharacter | Match(who: GenderCharacter)

  /** How `@gender` ends. */
  datatype GenderResult = Usage | SetOwn(gender: string) | UnknownTarget | CannotAssign | SetTarget(who: GenderCharacter, gender: string)

  /**
   * The arguments of `@gender`, left-stripped and lower-cased, cut at the first
   * space into a target and a gender; without a space, the whole is the gender.
   */
  function ParseGenderArgs(args: string): (r: (Option<string>, string))
    ensures r.0.None? ==> r.1 == Lower(LStrip(args)) && !Contains(r.1, " ")
    ensures r.0.Some? ==> r.0.value + " " + r.1 == Lower(LStrip(args)) && !Contains(r.0.value, " ")
  {
    var a := Lower(LStrip(args));
    match SplitOnce(a, " ")
    case None => (None, a)
    case Some((t, g)) =>
      HeadLacksSeparator(a, " ");
      (Some(t), g)
  }

  /** `<target> <gender>` parses into the lower-cased target and gender, whatever case they were typed in. */
  lemma ParseTargetGender(t: string, g: string)
    requires t != [] && forall k :: 0 <= k < |t| ==> !IsSpace(t[k])
    ensures ParseGenderArgs(t + " " + g) == (Some(Lower(t)), Lower(g))
  {
    var a := t + " " + g;
    assert LStrip(a) == a;
    assert Lower(a) == Lower(t) + " " + Lower(g);
    assert !Contains(Lower(t) + " "[..0], " ") by {
      var lt := Lower(t);
      assert lt + " "[..0] == lt;
      forall k | 0 <= k < |lt| ensures lt[k] != ' ' {
        assert !IsSpace(t[k]);
      }
      NoCharNoMatch(lt, ' ');
    }
    SplitOnceAt(Lower(t), " ", Lower(g));
  }

  /** The character `@gender` may change besides the caller: a target found for a valid gender, if any. */
  function TargetOf(args: string, search: string -> Found): set<GenderCharacter> {
    var p := ParseGenderArgs(args);
    if p.1 in PronounMap && p.0.Some? && search(p.0.value).Match? then {search(p.0.value).who} else {}
  }

  /**
   * `SetGender.func`: a gender outside the four names is refused with nothing
   * changed; without a target the caller's own gender is set; otherwise the
   * target must be found and be a character, and then its gender is set.
   */
  method SetGender(caller: GenderCharacter, args: string, search: string -> Found) returns (r: GenderResult)
    modifies caller`gender, TargetOf(args, search)`gender
    ensures r.Usage? <==> ParseGenderArgs(args).1 !in PronounMap
    ensures r.Usage? ==> caller.gender == old(caller.gender)
    ensures !r.Usage? && ParseGenderArgs(args).0.None? ==>
              r == SetOwn(ParseGenderArgs(args).1) && caller.gender == Some(ParseGenderArgs(args).1)
    ensures !r.Usage? && ParseGenderArgs(args).0.Some? ==>
              r == match search(ParseGenderArgs(args).0.value)
                   case NoMatch => UnknownTarget
                   case NotCharacter => CannotAssign
                   case Match(who) => SetTarget(who, ParseGenderArgs(args).1)
    ensures r.SetTarget? ==> r.who.gender == Some(r.gender)
    ensures (r.SetTarget? && r.who != caller) || r.UnknownTarget? || r.CannotAssign? ==> caller.gender == old(caller.gender)
  {
    var parsed := ParseGenderArgs(args);
    var target, gender := parsed.0, parsed.1;
    // The four names `@gender` accepts are exactly the genders of the table.
    if gender !in PronounMap {
      return Usage;
    }
    if target.None? {
      caller.gender := Some(gender);
      return SetOwn(gender);
    }
    match search(target.value) {
      case NoMatch =>
        return UnknownTarget;
      case NotCharacter =>
        return CannotAssign;
      case Match(who) =>
        who.gender := Some(gender);
        return SetTarget(who, gender);
    }
  }
}
