/**
 Organization slugs (`organizations.service.ts`): the normalizer `slugBase` and the slug choice of
 `createOrganization`.

 `toLowerCase` is a parameter of which only this is used: it leaves strings of a-z, 0-9 and '-' alone. So is
 the set of characters `trim` removes, which has none of those.
 */
module Slugs {
  import opened Prelude

  predicate Alnum(c: char) { 'a' <= c <= 'z' || '0' <= c <= '9' }

  predicate Other(c: char) { !Alnum(c) }

  predicate Dash(c: char) { c == '-' }

  predicate Plain(s: string) { forall i | 0 <= i < |s| :: Alnum(s[i]) || s[i] == '-' }

  datatype Locale = Locale(lower: string -> string, space: char -> bool)

  ghost predicate Sensible(l: Locale) {
    && (forall s | Plain(s) :: l.lower(s) == s)
    && (forall c | Alnum(c) || c == '-' :: !l.space(c))
  }

  // ---------------------------------------------------------------- the normalizer

  /** Each maximal run of other characters becomes one '-'. */
  function Collapse(s: string): string
    decreases |s|
  {
    if s == [] then []
    else if Alnum(s[0]) then [s[0]] + Collapse(s[1..])
    else "-" + Collapse(TrimStart(s[1..], Other))
  }

  function SlugBase(l: Locale, name: string): string {
    var normalized := Trim(Collapse(l.lower(Trim(name, l.space))), Dash);
    if |normalized| > 0 then normalized else "org"
  }

  // ---------------------------------------------------------------- what it computes

  /** The slug form: not empty, a-z, 0-9 and '-' only, no '-' at either end or beside another. */
  ghost predicate SlugForm(s: string) {
    && s != [] && Plain(s) && s[0] != '-' && s[|s| - 1] != '-'
    && forall i | 0 <= i < |s| - 1 :: s[i] == '-' ==> s[i + 1] != '-'
  }

  /** The leading run of letters and digits. */
  function Run(s: string): (r: string)
    ensures |r| <= |s| && r == s[..|r|] && (forall i | 0 <= i < |r| :: Alnum(r[i]))
    ensures |r| < |s| ==> !Alnum(s[|r|])
    ensures s != [] && Alnum(s[0]) ==> r != []
  {
    if s == [] || !Alnum(s[0]) then [] else [s[0]] + Run(s[1..])
  }

  /** The maximal runs of letters and digits, in order. */
  function Words(s: string): seq<string>
    decreases |s|
  {
    if s == [] then []
    else if !Alnum(s[0]) then Words(s[1..])
    else [Run(s)] + Words(s[|Run(s)|..])
  }

  function Join(words: seq<string>): string {
    if words == [] then [] else if |words| == 1 then words[0] else words[0] + "-" + Join(words[1..])
  }

  lemma {:induction false} WordsSkip(s: string)
    ensures Words(TrimStart(s, Other)) == Words(s)
  {
    if s != [] && !Alnum(s[0]) {
      WordsSkip(s[1..]);
    }
  }

  lemma {:induction false} CollapseRun(s: string)
    ensures Collapse(s) == Run(s) + Collapse(s[|Run(s)|..])
  {
    if s != [] && Alnum(s[0]) {
      CollapseRun(s[1..]);
      assert s[1..][|Run(s[1..])|..] == s[|Run(s)|..];
    } else {
      assert s[0..] == s;
    }
  }

  /** The dash a trailing run of other characters leaves. */
  function Tail(s: string): string { if s == [] || Alnum(s[|s| - 1]) then "" else "-" }

  /** What follows a run of letters and digits. */
  lemma CollapseGap(gap: string, rest: string)
    requires gap != [] && !Alnum(gap[0]) && rest == TrimStart(gap[1..], Other)
    ensures Collapse(gap) == "-" + Collapse(rest) && Words(gap) == Words(rest) && |rest| < |gap|
    ensures rest == [] ==> Tail(gap) == "-"
    ensures rest != [] ==> Alnum(rest[0]) && Tail(gap) == Tail(rest)
  {
    var others := gap[1..];
    assert Collapse(gap) == "-" + Collapse(rest) && Words(gap) == Words(others);
    hide Collapse;
    hide Words;
    WordsSkip(others);
    assert |gap| > 1 ==> others[|others| - 1] == gap[|gap| - 1];
    if rest == [] {
      AllSkipped(others);
    }
  }

  lemma JoinCons(run: string, words: seq<string>, tail: string)
    requires words != []
    ensures run + ("-" + (Join(words) + tail)) == Join([run] + words) + tail
  {
    assert ([run] + words)[1..] == words;
    assert run + ("-" + (Join(words) + tail)) == (run + "-" + Join(words)) + tail;
  }

  /** A run followed by a gap and the rest. */
  lemma JoinGap(run: string, gap: string, rest: string)
    requires gap != [] && !Alnum(gap[0]) && rest == TrimStart(gap[1..], Other)
    requires rest != [] ==> Words(rest) != [] && Collapse(rest) == Join(Words(rest)) + Tail(rest)
    ensures run + Collapse(gap) == Join([run] + Words(gap)) + Tail(gap)
  {
    assert Collapse("") == "" && Words("") == [];
    hide Collapse;
    hide Words;
    hide Tail;
    hide Join;
    CollapseGap(gap, rest);
    if rest == [] {
      JoinOne(run);
    } else {
      JoinCons(run, Words(rest), Tail(rest));
    }
  }

  lemma JoinOne(run: string)
    ensures Join([run] + []) == run
  {
    assert [run] + [] == [run];
  }

  /** A string that starts with a letter or digit collapses to its words joined by '-', and perhaps a last '-'. */
  lemma {:induction false} CollapseJoins(s: string)
    requires s != [] && Alnum(s[0])
    ensures Words(s) != [] && Collapse(s) == Join(Words(s)) + Tail(s)
    decreases |s|
  {
    var run := Run(s);
    var gap := s[|run|..];
    assert Words(s) == [run] + Words(gap);
    CollapseRun(s);
    if gap == [] {
      assert run == s && Words(gap) == [];
      JoinOne(run);
    } else {
      assert gap[0] == s[|run|] && gap[|gap| - 1] == s[|s| - 1];
      hide Collapse;
      hide Words;
      hide Join;
      var rest := TrimStart(gap[1..], Other);
      if rest != [] {
        CollapseJoins(rest);
      }
      JoinGap(run, gap, rest);
    }
  }

  lemma {:induction false} AllSkipped(s: string)
    requires TrimStart(s, Other) == []
    ensures forall i | 0 <= i < |s| :: !Alnum(s[i])
  {
    if s != [] {
      AllSkipped(s[1..]);
      forall i | 0 <= i < |s| ensures !Alnum(s[i]) {
        if i > 0 {
          assert s[1..][i - 1] == s[i];
        }
      }
    }
  }

  /** Words are runs of letters and digits. */
  lemma {:induction false} WordsAreRuns(s: string)
    ensures forall i | 0 <= i < |Words(s)| :: Words(s)[i] != [] && forall j | 0 <= j < |Words(s)[i]| :: Alnum(Words(s)[i][j])
    decreases |s|
  {
    if s != [] {
      if Alnum(s[0]) {
        WordsAreRuns(s[|Run(s)|..]);
      } else {
        WordsAreRuns(s[1..]);
      }
    }
  }

  lemma {:induction false} JoinIsSlug(words: seq<string>)
    requires words != []
    requires forall i | 0 <= i < |words| :: words[i] != [] && forall j | 0 <= j < |words[i]| :: Alnum(words[i][j])
    ensures SlugForm(Join(words))
  {
    if |words| > 1 {
      var rest := words[1..];
      assert forall i | 0 <= i < |rest| :: rest[i] == words[i + 1];
      JoinIsSlug(rest);
    }
  }

  lemma TrimSlug(j: string, tail: string)
    requires SlugForm(j) && tail in {"", "-"}
    ensures Trim(j + tail, Dash) == j && Trim("-" + (j + tail), Dash) == j
  {
    assert ("-" + (j + tail))[1..] == j + tail;
    if tail == "" {
      assert j + tail == j;
    } else {
      assert (j + tail)[..|j + tail| - 1] == j;
    }
  }

  lemma NormalizedIsJoin(s: string)
    ensures Trim(Collapse(s), Dash) == Join(Words(s))
  {
    if s != [] {
      WordsAreRuns(s);
      if Alnum(s[0]) {
        CollapseJoins(s);
        JoinIsSlug(Words(s));
        TrimSlug(Join(Words(s)), Tail(s));
      } else {
        var rest := TrimStart(s[1..], Other);
        CollapseGap(s, rest);
        if rest == [] {
          assert Collapse(s) == "-" && "-"[1..] == "";
        } else {
          CollapseJoins(rest);
          JoinIsSlug(Words(rest));
          TrimSlug(Join(Words(rest)), Tail(rest));
        }
      }
    }
  }

  /** A slug is the name's lower-case words, its maximal runs of a-z and 0-9, in order, joined by one '-' each;
      "org" when there are none. */
  lemma SlugIsJoinedWords(l: Locale, name: string)
    ensures var words := Words(l.lower(Trim(name, l.space)));
            SlugBase(l, name) == if words == [] then "org" else Join(words)
  {
    var text := l.lower(Trim(name, l.space));
    NormalizedIsJoin(text);
    WordsAreRuns(text);
    if Words(text) != [] {
      JoinIsSlug(Words(text));
    }
  }

  /** For every name, and whatever `toLowerCase` does, the result has the slug form. */
  lemma SlugBaseHasForm(l: Locale, name: string)
    ensures SlugForm(SlugBase(l, name))
  {
    var text := l.lower(Trim(name, l.space));
    SlugIsJoinedWords(l, name);
    WordsAreRuns(text);
    if Words(text) != [] {
      JoinIsSlug(Words(text));
    }
  }

  lemma {:induction false} CollapseKeeps(s: string)
    requires Plain(s) && forall i | 0 <= i < |s| - 1 :: s[i] == '-' ==> s[i + 1] != '-'
    ensures Collapse(s) == s
    decreases |s|
  {
    if s != [] {
      var rest := s[1..];
      assert forall i | 0 <= i < |rest| :: rest[i] == s[i + 1];
      assert s == [s[0]] + rest;
      CollapseKeeps(rest);
      if !Alnum(s[0]) && rest != [] {
        assert s[1] != '-' && Alnum(s[1]);
        assert TrimStart(rest, Other) == rest;
      }
    }
  }

  /** The strings `slugBase` leaves alone are exactly those in the slug form. */
  lemma FixedExactlyWhenSlug(l: Locale, s: string)
    requires Sensible(l)
    ensures SlugBase(l, s) == s <==> SlugForm(s)
  {
    SlugBaseHasForm(l, s);
    if SlugForm(s) {
      assert Trim(s, l.space) == s;
      CollapseKeeps(s);
      assert Trim(s, Dash) == s;
    }
  }

  /** Normalizing again changes nothing. */
  lemma Idempotent(l: Locale, name: string)
    requires Sensible(l)
    ensures SlugBase(l, SlugBase(l, name)) == SlugBase(l, name)
  {
    SlugBaseHasForm(l, name);
    FixedExactlyWhenSlug(l, SlugBase(l, name));
  }

  // ---------------------------------------------------------------- choosing a slug

  /** Eight digits of a random UUID without its dashes. */
  predicate Suffix(s: string) { |s| == 8 && forall i | 0 <= i < |s| :: '0' <= s[i] <= '9' || 'a' <= s[i] <= 'f' }

  lemma RetryHasForm(base: string, suffix: string)
    requires SlugForm(base) && Suffix(suffix)
    ensures SlugForm(base + "-" + suffix)
  {
    var s := base + "-" + suffix;
    assert s[|base|] == '-' && s[|base| - 1] != '-' && s[|base| + 1] == suffix[0];
  }

  const ATTEMPTS: nat := 3

  /** The slug of attempt `i`: the plain one first, then with a fresh suffix each time. */
  function Candidate(base: string, suffixes: seq<string>, i: nat): string
    requires i <= |suffixes|
  {
    if i == 0 then base else base + "-" + suffixes[i - 1]
  }

  /** The organizations' slugs, a unique column. */
  class Organizations {
    var slugs: set<string>

    constructor ()
      ensures slugs == {}
    {
      slugs := {};
    }

    /** Takes the first of the three candidates that is free, and none when all are taken. */
    method CreateOrganization(l: Locale, name: string, suffixes: seq<string>) returns (slug: Option<string>)
      requires |suffixes| == ATTEMPTS - 1 && forall i | 0 <= i < |suffixes| :: Suffix(suffixes[i])
      modifies this`slugs
      ensures slug.None? <==> forall i: nat | i < ATTEMPTS :: Candidate(SlugBase(l, name), suffixes, i) in old(slugs)
      ensures slug.None? ==> slugs == old(slugs)
      ensures slug.Some? ==>
                && slug.value !in old(slugs) && slugs == old(slugs) + {slug.value} && SlugForm(slug.value)
                && exists i: nat :: i < ATTEMPTS && slug.value == Candidate(SlugBase(l, name), suffixes, i)
                                    && forall j: nat | j < i :: Candidate(SlugBase(l, name), suffixes, j) in old(slugs)
    {
      var base := SlugBase(l, name);
      SlugBaseHasForm(l, name);
      var attempt := 0;
      while attempt < ATTEMPTS
        invariant attempt <= ATTEMPTS && slugs == old(slugs)
        invariant forall j: nat | j < attempt :: Candidate(base, suffixes, j) in slugs
      {
        var candidate := if attempt == 0 then base else base + "-" + suffixes[attempt - 1];
        if candidate !in slugs {
          if attempt > 0 {
            RetryHasForm(base, suffixes[attempt - 1]);
          }
          slugs := slugs + {candidate};
          assert candidate == Candidate(base, suffixes, attempt);
          return Some(candidate);
        }
        attempt := attempt + 1;
      }
      slug := None;
    }
  }
}
