/**
  The slug normaliser `generateSlug` of src/lib/utils.ts: lower-case the name, replace every
  run of characters outside `[a-z0-9]` by one '-', then drop a leading and a trailing '-'.
  The transliterating variant `createSlug` (module SeedGermany) shares the last two steps.
 */
module Slugs {

  /** `[a-z0-9]` */
  predicate IsLowerAlnum(c: char)
  {
    ('a' <= c <= 'z') || ('0' <= c <= '9')
  }

  /** `[a-z0-9-]` */
  predicate IsSlugChar(c: char)
  {
    IsLowerAlnum(c) || c == '-'
  }

  /**
    `toLowerCase` for one character: ASCII capitals and the German capital umlauts
    (U+00C4, U+00D6, U+00DC) are lowered; every other character is kept.
   */
  function LowerChar(c: char): char
  {
    if 'A' <= c <= 'Z' then (c as int + 32) as char
    else if c == '\U{00C4}' then '\U{00E4}'
    else if c == '\U{00D6}' then '\U{00F6}'
    else if c == '\U{00DC}' then '\U{00FC}'
    else c
  }

  function ToLower(s: string): string
  {
    seq(|s|, i requires 0 <= i < |s| => LowerChar(s[i]))
  }

  /**
    `replace(/[^a-z0-9]+/g, '-')`: every maximal run of characters outside `[a-z0-9]` becomes
    a single '-'. `inRun` records that the character before `s` belonged to such a run, whose
    '-' has already been emitted.
   */
  function CollapseRuns(s: string, inRun: bool): string
  {
    if s == [] then []
    else if IsLowerAlnum(s[0]) then [s[0]] + CollapseRuns(s[1..], false)
    else if inRun then CollapseRuns(s[1..], true)
    else ['-'] + CollapseRuns(s[1..], true)
  }

  /** `replace(/^-|-$/g, '')`: drop one leading and one trailing '-'. */
  function TrimHyphens(s: string): string
  {
    var t := if |s| > 0 && s[0] == '-' then s[1..] else s;
    if |t| > 0 && t[|t| - 1] == '-' then t[..|t| - 1] else t
  }

  /** The steps shared by both slug functions, applied to an already lowered name. */
  function SlugFrom(lowered: string): string
  {
    TrimHyphens(CollapseRuns(lowered, false))
  }

  /**
    generateSlug. The result contains only `[a-z0-9-]`, has no "--", neither begins nor ends
    with '-', and is no longer than the name.
   */
  function GenerateSlug(name: string): (r: string)
    ensures WellFormedSlug(r)
    ensures |r| <= |name|
  {
    SlugFromWellFormed(ToLower(name));
    SlugFrom(ToLower(name))
  }

  predicate NoDoubleHyphen(s: string)
  {
    forall i :: 0 < i < |s| ==> !(s[i - 1] == '-' && s[i] == '-')
  }

  /** Only `[a-z0-9-]`, no "--", and no '-' at either end. */
  predicate WellFormedSlug(s: string)
  {
    && (forall i :: 0 <= i < |s| ==> IsSlugChar(s[i]))
    && NoDoubleHyphen(s)
    && (|s| > 0 ==> s[0] != '-' && s[|s| - 1] != '-')
  }

  lemma {:induction false} CollapseRunsShape(s: string, inRun: bool)
    ensures var r := CollapseRuns(s, inRun);
      && (forall i :: 0 <= i < |r| ==> IsSlugChar(r[i]))
      && NoDoubleHyphen(r)
      && (inRun && |r| > 0 ==> r[0] != '-')
      && |r| <= |s|
  {
    if s != [] {
      if IsLowerAlnum(s[0]) {
        CollapseRunsShape(s[1..], false);
      } else if inRun {
        CollapseRunsShape(s[1..], true);
      } else {
        CollapseRunsShape(s[1..], true);
        var tail := CollapseRuns(s[1..], true);
        assert CollapseRuns(s, inRun) == ['-'] + tail;
        assert |tail| > 0 ==> tail[0] != '-';
      }
    }
  }

  lemma TrimHyphensShape(s: string)
    requires forall i :: 0 <= i < |s| ==> IsSlugChar(s[i])
    requires NoDoubleHyphen(s)
    ensures WellFormedSlug(TrimHyphens(s))
  {
    var t := if |s| > 0 && s[0] == '-' then s[1..] else s;
    assert |t| > 0 ==> t[0] != '-' by {
      if |s| > 1 && s[0] == '-' {
        assert t[0] == s[1];
      }
    }
    assert NoDoubleHyphen(t) by {
      forall i | 0 < i < |t| ensures !(t[i - 1] == '-' && t[i] == '-') {
        if |s| > 0 && s[0] == '-' {
          assert t[i - 1] == s[i] && t[i] == s[i + 1];
        }
      }
    }
    if |t| > 0 && t[|t| - 1] == '-' {
      var u := t[..|t| - 1];
      if |u| > 0 {
        assert u[|u| - 1] == t[|t| - 2];
      }
    }
  }

  /** Both slug functions end in `SlugFrom`, whose output is always well formed. */
  lemma SlugFromWellFormed(lowered: string)
    ensures WellFormedSlug(SlugFrom(lowered))
    ensures |SlugFrom(lowered)| <= |lowered|
  {
    CollapseRunsShape(lowered, false);
    TrimHyphensShape(CollapseRuns(lowered, false));
  }

  /** Lowering leaves `[a-z0-9-]` alone. */
  lemma ToLowerKeepsSlugChars(s: string)
    requires forall i :: 0 <= i < |s| ==> IsSlugChar(s[i])
    ensures ToLower(s) == s
  {
  }

  lemma {:induction false} CollapseRunsKeepsWellFormed(s: string, inRun: bool)
    requires forall i :: 0 <= i < |s| ==> IsSlugChar(s[i])
    requires NoDoubleHyphen(s)
    requires inRun && |s| > 0 ==> s[0] != '-'
    ensures CollapseRuns(s, inRun) == s
  {
    if s != [] {
      assert NoDoubleHyphen(s[1..]) by {
        forall i | 0 < i < |s[1..]| ensures !(s[1..][i - 1] == '-' && s[1..][i] == '-') {
          assert s[1..][i - 1] == s[i] && s[1..][i] == s[i + 1];
        }
      }
      if IsLowerAlnum(s[0]) {
        CollapseRunsKeepsWellFormed(s[1..], false);
      } else {
        assert s[0] == '-' && !inRun;
        assert |s| > 1 ==> s[1] != '-';
        CollapseRunsKeepsWellFormed(s[1..], true);
      }
      assert s == [s[0]] + s[1..];
    }
  }

  /** A well-formed slug is a fixed point of `SlugFrom`. */
  lemma SlugFromKeepsWellFormed(s: string)
    requires WellFormedSlug(s)
    ensures SlugFrom(s) == s
  {
    CollapseRunsKeepsWellFormed(s, false);
  }

  /** generateSlug is idempotent. */
  lemma GenerateSlugIdempotent(name: string)
    ensures GenerateSlug(GenerateSlug(name)) == GenerateSlug(name)
  {
    var s := GenerateSlug(name);
    ToLowerKeepsSlugChars(s);
    SlugFromKeepsWellFormed(s);
  }

  /** A slug that is already well formed comes back unchanged. */
  lemma GenerateSlugKeepsWellFormed(s: string)
    requires WellFormedSlug(s)
    ensures GenerateSlug(s) == s
  {
    ToLowerKeepsSlugChars(s);
    SlugFromKeepsWellFormed(s);
  }
}
