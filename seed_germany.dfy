/**
  `createSlug` of scripts/seed-germany.ts: lower-case, spell out the German umlauts and
  sharp s (ä→ae, ö→oe, ü→ue, ß→ss), then the same run-collapsing and trimming as
  `generateSlug`.
 */
module SeedGermany {
  import opened Slugs

  const LowerAUmlaut := '\U{00E4}'
  const LowerOUmlaut := '\U{00F6}'
  const LowerUUmlaut := '\U{00FC}'
  const SharpS := '\U{00DF}'

  /** `replace(/c/g, by)` for a single character `c`. */
  function ReplaceAll(s: string, c: char, replacement: string): string
  {
    if s == [] then []
    else (if s[0] == c then replacement else [s[0]]) + ReplaceAll(s[1..], c, replacement)
  }

  /** The four `replace` calls, in the source's order. */
  function Transliterate(s: string): string
  {
    ReplaceAll(ReplaceAll(ReplaceAll(ReplaceAll(s, LowerAUmlaut, "ae"), LowerOUmlaut, "oe"), LowerUUmlaut, "ue"), SharpS, "ss")
  }

  /** createSlug. The result contains only `[a-z0-9-]`, has no "--" and no '-' at either end. */
  function CreateSlug(name: string): (r: string)
    ensures WellFormedSlug(r)
  {
    SlugFromWellFormed(Transliterate(ToLower(name)));
    SlugFrom(Transliterate(ToLower(name)))
  }

  /** Reference definition: each (lowered) character on its own. */
  function Spelling(c: char): string
  {
    if c == LowerAUmlaut then "ae"
    else if c == LowerOUmlaut then "oe"
    else if c == LowerUUmlaut then "ue"
    else if c == SharpS then "ss"
    else [c]
  }

  function SpellOut(s: string): string
  {
    if s == [] then [] else Spelling(s[0]) + SpellOut(s[1..])
  }

  predicate HasGermanLetter(s: string)
  {
    exists i :: 0 <= i < |s| && (s[i] == LowerAUmlaut || s[i] == LowerOUmlaut || s[i] == LowerUUmlaut || s[i] == SharpS)
  }

  lemma {:induction false} ReplaceAllAppend(a: string, b: string, c: char, replacement: string)
    ensures ReplaceAll(a + b, c, replacement) == ReplaceAll(a, c, replacement) + ReplaceAll(b, c, replacement)
  {
    if a != [] {
      var head := if a[0] == c then replacement else [a[0]];
      assert (a + b)[0] == a[0] && (a + b)[1..] == a[1..] + b;
      ReplaceAllAppend(a[1..], b, c, replacement);
      calc {
        ReplaceAll(a + b, c, replacement);
        head + ReplaceAll(a[1..] + b, c, replacement);
        head + (ReplaceAll(a[1..], c, replacement) + ReplaceAll(b, c, replacement));
        (head + ReplaceAll(a[1..], c, replacement)) + ReplaceAll(b, c, replacement);
      }
    } else {
      assert a + b == b;
    }
  }

  lemma {:induction false} ReplaceAllAbsent(s: string, c: char, replacement: string)
    requires forall i :: 0 <= i < |s| ==> s[i] != c
    ensures ReplaceAll(s, c, replacement) == s
  {
    if s != [] {
      ReplaceAllAbsent(s[1..], c, replacement);
    }
  }

  lemma TransliterateAppend(a: string, b: string)
    ensures Transliterate(a + b) == Transliterate(a) + Transliterate(b)
  {
    var a1, b1 := ReplaceAll(a, LowerAUmlaut, "ae"), ReplaceAll(b, LowerAUmlaut, "ae");
    ReplaceAllAppend(a, b, LowerAUmlaut, "ae");
    var a2, b2 := ReplaceAll(a1, LowerOUmlaut, "oe"), ReplaceAll(b1, LowerOUmlaut, "oe");
    ReplaceAllAppend(a1, b1, LowerOUmlaut, "oe");
    var a3, b3 := ReplaceAll(a2, LowerUUmlaut, "ue"), ReplaceAll(b2, LowerUUmlaut, "ue");
    ReplaceAllAppend(a2, b2, LowerUUmlaut, "ue");
    ReplaceAllAppend(a3, b3, SharpS, "ss");
  }

  /** Replacing in a string that is a single other character, or empty, changes nothing. */
  lemma ReplaceInShort(s: string, c: char, replacement: string)
    requires |s| <= 2 && c !in s
    ensures ReplaceAll(s, c, replacement) == s
  {
    if |s| > 0 {
      assert ReplaceAll(s[1..], c, replacement) == s[1..] by {
        if |s| == 2 {
          assert s[1..][1..] == [];
        }
      }
      assert s == [s[0]] + s[1..];
    }
  }

  lemma ReplaceAllSingle(c: char, x: char, replacement: string)
    ensures ReplaceAll([c], x, replacement) == if c == x then replacement else [c]
  {
    assert [c][1..] == [];
  }

  lemma TransliterateChar(c: char)
    ensures Transliterate([c]) == Spelling(c)
  {
    var a1 := ReplaceAll([c], LowerAUmlaut, "ae");
    ReplaceAllSingle(c, LowerAUmlaut, "ae");
    if c == LowerAUmlaut {
      ReplaceInShort(a1, LowerOUmlaut, "oe");
      ReplaceInShort(a1, LowerUUmlaut, "ue");
      ReplaceInShort(a1, SharpS, "ss");
    } else if c == LowerOUmlaut {
      var a2 := ReplaceAll(a1, LowerOUmlaut, "oe");
      ReplaceAllSingle(c, LowerOUmlaut, "oe");
      ReplaceInShort(a2, LowerUUmlaut, "ue");
      ReplaceInShort(a2, SharpS, "ss");
    } else if c == LowerUUmlaut {
      ReplaceInShort(a1, LowerOUmlaut, "oe");
      var a3 := ReplaceAll(a1, LowerUUmlaut, "ue");
      ReplaceAllSingle(c, LowerUUmlaut, "ue");
      ReplaceInShort(a3, SharpS, "ss");
    } else {
      ReplaceInShort(a1, LowerOUmlaut, "oe");
      ReplaceInShort(a1, LowerUUmlaut, "ue");
      ReplaceAllSingle(c, SharpS, "ss");
    }
  }

  /**
    The four chained replacements spell out each character independently: ä, ö, ü and ß
    become ae, oe, ue and ss, and nothing else changes.
   */
  lemma {:induction false} TransliterateSpellsOut(s: string)
    ensures Transliterate(s) == SpellOut(s)
  {
    if s != [] {
      assert s == [s[0]] + s[1..];
      TransliterateAppend([s[0]], s[1..]);
      TransliterateChar(s[0]);
      TransliterateSpellsOut(s[1..]);
    }
  }

  /** Capital umlauts are lowered first, so they are spelled out too. */
  lemma CapitalUmlautsSpelledOut()
    ensures Transliterate(ToLower(['\U{00C4}'])) == "ae"
    ensures Transliterate(ToLower(['\U{00D6}'])) == "oe"
    ensures Transliterate(ToLower(['\U{00DC}'])) == "ue"
    ensures Transliterate(ToLower([SharpS])) == "ss"
  {
    TransliterateSpellsOut(ToLower(['\U{00C4}']));
    TransliterateSpellsOut(ToLower(['\U{00D6}']));
    TransliterateSpellsOut(ToLower(['\U{00DC}']));
    TransliterateSpellsOut(ToLower([SharpS]));
  }

  /** Without ä, ö, ü or ß after lowering, createSlug and generateSlug agree. */
  lemma CreateSlugIsGenerateSlugWithoutUmlauts(name: string)
    requires !HasGermanLetter(ToLower(name))
    ensures CreateSlug(name) == GenerateSlug(name)
  {
    var s := ToLower(name);
    ReplaceAllAbsent(s, LowerAUmlaut, "ae");
    ReplaceAllAbsent(s, LowerOUmlaut, "oe");
    ReplaceAllAbsent(s, LowerUUmlaut, "ue");
    ReplaceAllAbsent(s, SharpS, "ss");
  }

  /** createSlug is idempotent. */
  lemma CreateSlugIdempotent(name: string)
    ensures CreateSlug(CreateSlug(name)) == CreateSlug(name)
  {
    var s := CreateSlug(name);
    ToLowerKeepsSlugChars(s);
    assert !HasGermanLetter(ToLower(s)) by {
      forall i | 0 <= i < |s| ensures IsSlugChar(ToLower(s)[i]) {
      }
    }
    CreateSlugIsGenerateSlugWithoutUmlauts(s);
    GenerateSlugKeepsWellFormed(s);
  }
}
