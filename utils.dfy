/**
 * Name and URL derivation (xplore/utils.py): `slugify`, `camel_case_split`
 * and `camel_case_to_title`.
 *
 * Characters are classified the way Python's `re` and `str` methods do for
 * ASCII: `\w` is `[A-Za-z0-9_]`, `\s` and `str.strip()` use the ASCII
 * characters for which `str.isspace()` holds, and `str.lower()` maps `A-Z`
 * to `a-z`.
 */
module Utils {
  import opened Base
  import opened Format

  /** Words that stay lower case inside a title (LITTLE_WORDS). */
  const LITTLE_WORDS: set<string> := {
    "the", "a", "an", "and", "in", "for", "of", "at", "around", "by",
    "after", "along", "from", "on", "to", "with", "without"
  }

  predicate IsUpper(c: char) { 'A' <= c <= 'Z' }

  predicate IsLower(c: char) { 'a' <= c <= 'z' }

  /** `\w` */
  predicate IsWordChar(c: char) { IsUpper(c) || IsLower(c) || IsDigit(c) || c == '_' }

  /** `\s`, and what `str.strip()` removes. */
  predicate IsSpace(c: char) {
    c == ' ' || c == '\t' || c == '\n' || c == '\r' || c == '\U{B}' || c == '\U{C}' || '\U{1C}' <= c <= '\U{1F}'
  }

  /** `[-\s]`: the characters a run of which becomes one `-`. */
  predicate IsRunChar(c: char) { c == '-' || IsSpace(c) }

  /** The characters a slug is made of. */
  predicate IsSlugChar(c: char) { IsLower(c) || IsDigit(c) || c == '_' || c == '-' }

  function LowerChar(c: char): (d: char)
    ensures !IsUpper(d)
  {
    if IsUpper(c) then (c as int + 32) as char else c
  }

  /** `str.lower()` */
  function Lower(s: string): (r: string)
    ensures |r| == |s|
    ensures forall i :: 0 <= i < |s| ==> r[i] == LowerChar(s[i])
  {
    seq(|s|, i requires 0 <= i < |s| => LowerChar(s[i]))
  }

  lemma LowerAppend(a: string, b: string)
    ensures Lower(a + b) == Lower(a) + Lower(b)
  {
  }

  lemma LowerIdempotent(s: string)
    ensures Lower(Lower(s)) == Lower(s)
  {
  }

  /** `str.lstrip()` */
  function StripLeft(s: string): (r: string)
    ensures |r| <= |s| && r == s[|s| - |r|..]
    ensures r == [] || !IsSpace(r[0])
    ensures forall i :: 0 <= i < |s| - |r| ==> IsSpace(s[i])
  {
    if s != [] && IsSpace(s[0]) then StripLeft(s[1..]) else s
  }

  /** `str.rstrip()` */
  function StripRight(s: string): (r: string)
    ensures |r| <= |s| && r == s[..|r|]
    ensures r == [] || !IsSpace(r[|r| - 1])
    ensures forall i :: |r| <= i < |s| ==> IsSpace(s[i])
  {
    if s != [] && IsSpace(s[|s| - 1]) then StripRight(s[..|s| - 1]) else s
  }

  /** `str.strip()` */
  function Strip(s: string): string {
    StripRight(StripLeft(s))
  }

  /** `re.sub(r'[^\w\s-]', '', s)`: drops every character that is not a word character, whitespace or `-`. */
  function RemoveInvalid(s: string): (r: string)
    ensures forall i :: 0 <= i < |r| ==> IsWordChar(r[i]) || IsRunChar(r[i])
  {
    if s == [] then []
    else if IsWordChar(s[0]) || IsRunChar(s[0]) then [s[0]] + RemoveInvalid(s[1..])
    else RemoveInvalid(s[1..])
  }

  /**
   * `RemoveInvalid` is a filter: it works character by character, keeping
   * exactly the word characters, whitespace and `-`, in their order.
   */
  lemma {:induction false} RemoveInvalidFilters(a: string, b: string)
    ensures RemoveInvalid(a + b) == RemoveInvalid(a) + RemoveInvalid(b)
  {
    if a == [] {
      assert a + b == b;
    } else {
      assert (a + b)[1..] == a[1..] + b;
      RemoveInvalidFilters(a[1..], b);
    }
  }

  /** A single character survives `RemoveInvalid` iff it is a word character, whitespace or `-`. */
  lemma RemoveInvalidChar(c: char)
    ensures RemoveInvalid([c]) == if IsWordChar(c) || IsRunChar(c) then [c] else []
  {
    assert [c][1..] == [];
  }

  /** The rest of `s` after its leading run of `-` and whitespace. */
  function DropRun(s: string): string {
    if s != [] && IsRunChar(s[0]) then DropRun(s[1..]) else s
  }

  /** What `DropRun` leaves is a suffix that does not start with `-` or whitespace. */
  lemma {:induction false} DropRunSuffix(s: string)
    ensures |DropRun(s)| <= |s| && DropRun(s) == s[|s| - |DropRun(s)|..]
    ensures s != [] && IsRunChar(s[0]) ==> |DropRun(s)| < |s|
    ensures DropRun(s) == [] || !IsRunChar(DropRun(s)[0])
  {
    if s != [] && IsRunChar(s[0]) {
      DropRunSuffix(s[1..]);
    }
  }

  /** No two `-` next to each other. */
  predicate NoDoubleDash(s: string) {
    forall i :: 0 <= i < |s| - 1 ==> !(s[i] == '-' && s[i + 1] == '-')
  }

  /**
   * `re.sub(r'[-\s]+', '-', s)`: every maximal run of `-` and whitespace
   * becomes a single `-`; other characters are kept in order.
   */
  function Collapse(s: string): string
    decreases |s|
  {
    if s == [] then []
    else if IsRunChar(s[0]) then DropRunSuffix(s); ['-'] + Collapse(DropRun(s))
    else [s[0]] + Collapse(s[1..])
  }

  /**
   * What `Collapse` leaves: no whitespace and no `--`; nothing exactly when
   * the input is empty; a leading `-` exactly when the input starts with a run.
   */
  lemma {:induction false} CollapseShape(s: string)
    ensures forall i :: 0 <= i < |Collapse(s)| ==> !IsSpace(Collapse(s)[i])
    ensures NoDoubleDash(Collapse(s))
    ensures Collapse(s) != [] <==> s != []
    ensures Collapse(s) != [] ==> (Collapse(s)[0] == '-' <==> IsRunChar(s[0]))
    decreases |s|
  {
    if s != [] {
      DropRunSuffix(s);
      var src := if IsRunChar(s[0]) then DropRun(s) else s[1..];
      var rest := Collapse(src);
      CollapseShape(src);
      var r := Collapse(s);
      assert r == [r[0]] + rest;
      assert rest != [] ==> !(r[0] == '-' && rest[0] == '-');
      assert forall i :: 0 < i < |r| ==> r[i] == rest[i - 1];
    }
  }

  /** `DropRun` removes a whole leading run, and nothing after it. */
  lemma {:induction false} DropRunOver(run: string, rest: string)
    requires forall i :: 0 <= i < |run| ==> IsRunChar(run[i])
    requires rest == [] || !IsRunChar(rest[0])
    ensures DropRun(run + rest) == rest
  {
    if run == [] {
      assert run + rest == rest;
    } else {
      assert (run + rest)[1..] == run[1..] + rest;
      DropRunOver(run[1..], rest);
    }
  }

  /**
   * Each maximal run of `-` and whitespace becomes exactly one `-`, and the
   * characters before it are kept as they are.
   */
  lemma CollapseRun(w: string, run: string, rest: string)
    requires forall i :: 0 <= i < |w| ==> !IsRunChar(w[i])
    requires run != [] && forall i :: 0 <= i < |run| ==> IsRunChar(run[i])
    requires rest == [] || !IsRunChar(rest[0])
    ensures Collapse(w + run + rest) == w + "-" + Collapse(rest)
  {
    var t := run + rest;
    assert t[0] == run[0];
    DropRunOver(run, rest);
    assert Collapse(t) == "-" + Collapse(rest);
    assert w + run + rest == w + t;
    CollapseKeepsPrefix(w, t);
  }

  /** A string without `-` or whitespace passes through `Collapse` unchanged. */
  lemma CollapseRunFree(w: string)
    requires forall i :: 0 <= i < |w| ==> !IsRunChar(w[i])
    ensures Collapse(w) == w
  {
    CollapseKeepsPrefix(w, []);
    assert w + [] == w;
  }

  /** `Collapse` introduces no character but `-`. */
  lemma {:induction false} CollapseAlphabet(s: string)
    requires forall i :: 0 <= i < |s| ==> IsSlugChar(s[i]) || IsSpace(s[i])
    ensures forall i :: 0 <= i < |Collapse(s)| ==> IsSlugChar(Collapse(s)[i])
    decreases |s|
  {
    if s != [] {
      if IsRunChar(s[0]) {
        DropRunSuffix(s);
        var d := DropRun(s);
        assert forall i :: 0 <= i < |d| ==> d[i] == s[|s| - |d| + i];
        CollapseAlphabet(d);
      } else {
        CollapseAlphabet(s[1..]);
      }
    }
  }

  /** A string `slugify` leaves as it is. */
  predicate IsSlug(s: string) {
    (forall i :: 0 <= i < |s| ==> IsSlugChar(s[i])) && NoDoubleDash(s)
  }

  /**
   * `slugify(string)`: drop invalid characters, strip surrounding
   * whitespace, lower-case, and turn each run of `-` and whitespace into
   * one `-`.  The result is a slug: lower-case letters, digits, `_` and
   * single `-`s only, so in particular no whitespace.
   */
  function Slugify(s: string): (r: string)
    ensures IsSlug(r)
  {
    var t := Lower(Strip(RemoveInvalid(s)));
    StripKeepsValid(RemoveInvalid(s));
    assert forall i :: 0 <= i < |t| ==> IsSlugChar(t[i]) || IsSpace(t[i]);
    CollapseAlphabet(t);
    CollapseShape(t);
    Collapse(t)
  }

  lemma StripKeepsValid(s: string)
    requires forall i :: 0 <= i < |s| ==> IsWordChar(s[i]) || IsRunChar(s[i])
    ensures forall i :: 0 <= i < |Strip(s)| ==> IsWordChar(Strip(s)[i]) || IsRunChar(Strip(s)[i])
  {
    var l := StripLeft(s);
    forall i | 0 <= i < |l| ensures IsWordChar(l[i]) || IsRunChar(l[i]) {
      assert l[i] == s[|s| - |l| + i];
    }
    var r := StripRight(l);
    forall i | 0 <= i < |r| ensures IsWordChar(r[i]) || IsRunChar(r[i]) {
      assert r[i] == l[i];
    }
    assert Strip(s) == r;
  }

  lemma {:induction false} RemoveInvalidKeepsValid(s: string)
    requires forall i :: 0 <= i < |s| ==> IsWordChar(s[i]) || IsRunChar(s[i])
    ensures RemoveInvalid(s) == s
  {
    if s != [] {
      RemoveInvalidKeepsValid(s[1..]);
    }
  }

  lemma {:induction false} CollapseKeepsSlug(s: string)
    requires IsSlug(s)
    ensures Collapse(s) == s
  {
    if s != [] {
      assert IsSlug(s[1..]);
      if IsRunChar(s[0]) {
        assert DropRun(s) == s[1..] by {
          assert s[1..] == [] || !IsRunChar(s[1]);
          assert DropRun(s) == DropRun(s[1..]);
        }
      }
      CollapseKeepsSlug(s[1..]);
    }
  }

  /** `lstrip` of a concatenation: what survives of `a`, then all of `b`, unless `a` is all whitespace. */
  lemma {:induction false} StripLeftAppend(a: string, b: string)
    ensures StripLeft(a + b) == if StripLeft(a) == [] then StripLeft(b) else StripLeft(a) + b
  {
    if a == [] {
      assert a + b == b;
    } else {
      assert (a + b)[0] == a[0];
      if IsSpace(a[0]) {
        assert (a + b)[1..] == a[1..] + b;
        StripLeftAppend(a[1..], b);
      }
    }
  }

  /** `rstrip` ignores trailing whitespace that is appended. */
  lemma {:induction false} StripRightSpaces(a: string, post: string)
    requires forall i :: 0 <= i < |post| ==> IsSpace(post[i])
    ensures StripRight(a + post) == StripRight(a)
    decreases |post|
  {
    if post == [] {
      assert a + post == a;
    } else {
      var shorter := post[..|post| - 1];
      assert (a + post)[..|a + post| - 1] == a + shorter;
      StripRightSpaces(a, shorter);
    }
  }

  /** A string of whitespace strips to nothing. */
  lemma AllSpacesStripLeft(pre: string)
    requires forall i :: 0 <= i < |pre| ==> IsSpace(pre[i])
    ensures StripLeft(pre) == []
  {
  }

  /** `strip()` ignores whitespace around its argument. */
  lemma StripPadded(pre: string, x: string, post: string)
    requires forall i :: 0 <= i < |pre| ==> IsSpace(pre[i])
    requires forall i :: 0 <= i < |post| ==> IsSpace(post[i])
    ensures Strip(pre + x + post) == Strip(x)
  {
    assert pre + x + post == pre + (x + post);
    AllSpacesStripLeft(pre);
    StripLeftAppend(pre, x + post);
    StripLeftAppend(x, post);
    if StripLeft(x) == [] {
      AllSpacesStripLeft(post);
    } else {
      StripRightSpaces(StripLeft(x), post);
    }
  }

  /**
   * `slugify` strips surrounding whitespace: padding the input with
   * whitespace on either side does not change the slug.
   */
  lemma SlugifyStrips(pre: string, s: string, post: string)
    requires forall i :: 0 <= i < |pre| ==> IsSpace(pre[i])
    requires forall i :: 0 <= i < |post| ==> IsSpace(post[i])
    ensures Slugify(pre + s + post) == Slugify(s)
  {
    RemoveInvalidFilters(pre + s, post);
    RemoveInvalidFilters(pre, s);
    RemoveInvalidKeepsValid(pre);
    RemoveInvalidKeepsValid(post);
    StripPadded(pre, RemoveInvalid(s), post);
    SlugifySteps(pre + s + post);
    SlugifySteps(s);
  }

  /** `slugify` leaves slugs unchanged. */
  lemma SlugifyFixesSlugs(s: string)
    requires IsSlug(s)
    ensures Slugify(s) == s
  {
    RemoveInvalidKeepsValid(s);
    assert StripLeft(s) == s;
    assert StripRight(s) == s;
    assert Lower(s) == s;
    CollapseKeepsSlug(s);
  }

  /** `slugify` is idempotent. */
  lemma SlugifyIdempotent(s: string)
    ensures Slugify(Slugify(s)) == Slugify(s)
  {
    SlugifyFixesSlugs(Slugify(s));
  }

  predicate IsWord(w: string) {
    w != [] && forall i :: 0 <= i < |w| ==> IsWordChar(w[i])
  }

  function LowerAll(ws: seq<string>): (r: seq<string>)
    ensures |r| == |ws|
    ensures forall i :: 0 <= i < |ws| ==> r[i] == Lower(ws[i])
  {
    if ws == [] then [] else [Lower(ws[0])] + LowerAll(ws[1..])
  }

  lemma {:induction false} JoinedWordsValid(ws: seq<string>)
    requires forall i :: 0 <= i < |ws| ==> IsWord(ws[i])
    ensures forall i :: 0 <= i < |Join(ws, " ")| ==> IsWordChar(Join(ws, " ")[i]) || Join(ws, " ")[i] == ' '
  {
    if |ws| > 1 {
      JoinedWordsValid(ws[1..]);
      var rest := Join(ws[1..], " ");
      assert Join(ws, " ") == ws[0] + " " + rest;
      forall i | 0 <= i < |Join(ws, " ")|
        ensures IsWordChar(Join(ws, " ")[i]) || Join(ws, " ")[i] == ' '
      {
        if i >= |ws[0]| + 1 {
          assert Join(ws, " ")[i] == rest[i - |ws[0]| - 1];
        }
      }
    }
  }

  lemma {:induction false} JoinedWordsEnds(ws: seq<string>)
    requires |ws| > 0
    requires forall i :: 0 <= i < |ws| ==> IsWord(ws[i])
    ensures |Join(ws, " ")| > 0
    ensures IsWordChar(Join(ws, " ")[0]) && IsWordChar(Join(ws, " ")[|Join(ws, " ")| - 1])
  {
    if |ws| > 1 {
      JoinedWordsEnds(ws[1..]);
      var rest := Join(ws[1..], " ");
      assert Join(ws, " ") == ws[0] + " " + rest;
    }
  }

  lemma {:induction false} LowerJoin(ws: seq<string>)
    ensures Lower(Join(ws, " ")) == Join(LowerAll(ws), " ")
  {
    if |ws| > 1 {
      LowerJoin(ws[1..]);
      LowerAppend(ws[0], " " + Join(ws[1..], " "));
      LowerAppend(" ", Join(ws[1..], " "));
      assert LowerAll(ws)[1..] == LowerAll(ws[1..]);
    }
  }

  /** A prefix with no `-` or whitespace passes through `Collapse` unchanged. */
  lemma {:induction false} CollapseKeepsPrefix(a: string, b: string)
    requires forall i :: 0 <= i < |a| ==> !IsRunChar(a[i])
    ensures Collapse(a + b) == a + Collapse(b)
  {
    if a == [] {
      assert a + b == b;
    } else {
      assert (a + b)[1..] == a[1..] + b;
      CollapseKeepsPrefix(a[1..], b);
    }
  }

  lemma {:induction false} CollapseJoin(ws: seq<string>)
    requires forall i :: 0 <= i < |ws| ==> IsWord(ws[i])
    ensures Collapse(Join(ws, " ")) == Join(ws, "-")
  {
    if |ws| == 1 {
      CollapseKeepsPrefix(ws[0], []);
      assert ws[0] + [] == ws[0];
    } else if |ws| > 1 {
      var rest := Join(ws[1..], " ");
      JoinedWordsEnds(ws[1..]);
      CollapseJoin(ws[1..]);
      CollapseGap(ws[0], rest);
    }
  }

  /** A single space between a word and a text that starts with a word character becomes `-`. */
  lemma CollapseGap(w: string, rest: string)
    requires IsWord(w) && rest != [] && IsWordChar(rest[0])
    ensures Collapse(w + " " + rest) == w + "-" + Collapse(rest)
  {
    assert w + " " + rest == w + (" " + rest);
    CollapseKeepsPrefix(w, " " + rest);
    CollapseSpace(rest);
    assert w + ("-" + Collapse(rest)) == w + "-" + Collapse(rest);
  }

  lemma CollapseSpace(rest: string)
    requires rest != [] && IsWordChar(rest[0])
    ensures Collapse(" " + rest) == "-" + Collapse(rest)
  {
    assert DropRun(" " + rest) == rest by {
      assert (" " + rest)[1..] == rest;
    }
  }

  /**
   * A name made of words separated by single spaces becomes those words,
   * lower-cased, joined by single `-`.
   */
  lemma SlugifyWords(ws: seq<string>)
    requires |ws| > 0
    requires forall i :: 0 <= i < |ws| ==> IsWord(ws[i])
    ensures Slugify(Join(ws, " ")) == Join(LowerAll(ws), "-")
  {
    JoinedWordsSurviveCleaning(ws);
    LowerJoin(ws);
    LowerKeepsWords(ws);
    CollapseJoin(LowerAll(ws));
    SlugifySteps(Join(ws, " "));
  }

  lemma JoinedWordsSurviveCleaning(ws: seq<string>)
    requires |ws| > 0
    requires forall i :: 0 <= i < |ws| ==> IsWord(ws[i])
    ensures Strip(RemoveInvalid(Join(ws, " "))) == Join(ws, " ")
  {
    JoinedWordsTrimmed(ws);
    JoinedWordsAreValid(ws);
  }

  /** A space-joined list of words has no surrounding whitespace to strip. */
  lemma JoinedWordsTrimmed(ws: seq<string>)
    requires |ws| > 0
    requires forall i :: 0 <= i < |ws| ==> IsWord(ws[i])
    ensures Strip(Join(ws, " ")) == Join(ws, " ")
  {
    JoinedWordsEnds(ws);
    WordCharsAreTrimmed(Join(ws, " "));
  }

  lemma WordCharsAreTrimmed(j: string)
    requires j != [] && IsWordChar(j[0]) && IsWordChar(j[|j| - 1])
    ensures Strip(j) == j
  {
    StripKeepsTrimmed(j);
  }

  lemma JoinedWordsAreValid(ws: seq<string>)
    requires forall i :: 0 <= i < |ws| ==> IsWord(ws[i])
    ensures RemoveInvalid(Join(ws, " ")) == Join(ws, " ")
  {
    var j := Join(ws, " ");
    JoinedWordsValid(ws);
    forall i | 0 <= i < |j| ensures IsWordChar(j[i]) || IsRunChar(j[i]) {
    }
    RemoveInvalidKeepsValid(j);
  }

  lemma SlugifySteps(s: string)
    ensures Slugify(s) == Collapse(Lower(Strip(RemoveInvalid(s))))
  {
  }

  lemma LowerKeepsWords(ws: seq<string>)
    requires forall i :: 0 <= i < |ws| ==> IsWord(ws[i])
    ensures forall i :: 0 <= i < |ws| ==> IsWord(LowerAll(ws)[i])
  {
    forall i | 0 <= i < |ws| ensures IsWord(LowerAll(ws)[i]) {
      var w := ws[i];
      assert forall k :: 0 <= k < |w| ==> IsWordChar(LowerChar(w[k]));
    }
  }

  lemma StripKeepsTrimmed(t: string)
    requires t != [] && !IsSpace(t[0]) && !IsSpace(t[|t| - 1])
    ensures Strip(t) == t
  {
    assert StripLeft(t) == t;
  }

  // ---------------------------------------------------------------------
  // camel_case_split
  // ---------------------------------------------------------------------

  /**
   * A split point of the regex `(?<=[a-z])(?=[A-Z])|(?<=[A-Z])(?=[A-Z][a-z])`:
   * between a lower-case and an upper-case letter, or inside a run of
   * capitals just before the capital that starts a lower-case word.
   */
  predicate IsCut(s: string, q: int) {
    (0 < q < |s| && IsLower(s[q - 1]) && IsUpper(s[q]))
    || (0 < q && q + 1 < |s| && IsUpper(s[q - 1]) && IsUpper(s[q]) && IsLower(s[q + 1]))
  }

  /** Where the alternation can succeed: a cut, or `$` (the end, or just before a final newline). */
  predicate MatchEndsAt(s: string, q: int) {
    IsCut(s, q) || q == |s| || (0 <= q == |s| - 1 && s[q] == '\n')
  }

  /**
   * The lazy `.+?` of a match that started at `p` has consumed `s[p..q]`:
   * the match ends at the first `q` where the alternation succeeds, and
   * fails if it would have to consume a newline first.
   */
  function MatchEnd(s: string, p: nat, q: nat): (r: Option<nat>)
    requires p < q <= |s|
    ensures r.Some? ==> q <= r.value <= |s| && MatchEndsAt(s, r.value)
    ensures r.Some? ==> forall k :: q <= k < r.value ==> s[k] != '\n'
    decreases |s| - q
  {
    if MatchEndsAt(s, q) then Some(q)
    else if s[q] != '\n' then MatchEnd(s, p, q + 1)
    else None
  }

  /** `re.finditer` of the camel-case regex from position `p` on. */
  function SplitFrom(s: string, p: nat): (parts: seq<string>)
    requires p <= |s|
    ensures forall i :: 0 <= i < |parts| ==> parts[i] != [] && '\n' !in parts[i]
    decreases |s| - p
  {
    if p == |s| then []
    else if s[p] == '\n' then SplitFrom(s, p + 1)
    else match MatchEnd(s, p, p + 1)
      case Some(q) =>
        assert forall k :: p <= k < q ==> s[p..q][k - p] == s[k];
        [s[p..q]] + SplitFrom(s, q)
      case None => SplitFrom(s, p + 1)
  }

  /** `camel_case_split(token)` */
  function CamelCaseSplit(token: string): seq<string> {
    SplitFrom(token, 0)
  }

  lemma {:induction false} MatchEndNoNewline(s: string, p: nat, q: nat)
    requires p < q <= |s|
    requires '\n' !in s
    ensures MatchEnd(s, p, q).Some?
    ensures forall k :: q <= k < MatchEnd(s, p, q).value ==> !IsCut(s, k)
    ensures MatchEnd(s, p, q).value == |s| || IsCut(s, MatchEnd(s, p, q).value)
    decreases |s| - q
  {
    if !MatchEndsAt(s, q) {
      assert s[q] in s;
      MatchEndNoNewline(s, p, q + 1);
    }
  }

  /** Without newlines, the parts are the input cut into pieces. */
  lemma {:induction false} SplitFromConcat(s: string, p: nat)
    requires p <= |s| && '\n' !in s
    ensures Concat(SplitFrom(s, p)) == s[p..]
    decreases |s| - p
  {
    if p < |s| {
      assert s[p] in s;
      MatchEndNoNewline(s, p, p + 1);
      var q := MatchEnd(s, p, p + 1).value;
      SplitFromConcat(s, q);
      assert s[p..q] + s[q..] == s[p..];
    }
  }

  /** The positions in `s` at which the parts starting at `p` end. */
  function Ends(parts: seq<string>, p: int): set<int> {
    if parts == [] then {} else {p + |parts[0]|} + Ends(parts[1..], p + |parts[0]|)
  }

  lemma {:induction false} EndsInRange(s: string, p: nat)
    requires p <= |s| && '\n' !in s
    ensures forall e :: e in Ends(SplitFrom(s, p), p) ==> p < e <= |s|
    decreases |s| - p
  {
    if p < |s| {
      assert s[p] in s;
      MatchEndNoNewline(s, p, p + 1);
      var q := MatchEnd(s, p, p + 1).value;
      EndsInRange(s, q);
      assert |s[p..q]| == q - p;
    }
  }

  /**
   * Without newlines, the inner boundaries between consecutive parts are
   * exactly the cut positions of `s` after `p`.
   */
  lemma {:induction false} SplitFromCuts(s: string, p: nat)
    requires p <= |s| && '\n' !in s
    ensures forall q :: p < q < |s| ==> (q in Ends(SplitFrom(s, p), p) <==> IsCut(s, q))
    decreases |s| - p
  {
    if p < |s| {
      assert s[p] in s;
      MatchEndNoNewline(s, p, p + 1);
      var e := MatchEnd(s, p, p + 1).value;
      var parts := SplitFrom(s, p);
      assert parts == [s[p..e]] + SplitFrom(s, e);
      assert Ends(parts, p) == {e} + Ends(SplitFrom(s, e), e) by {
        assert |s[p..e]| == e - p;
        assert parts[1..] == SplitFrom(s, e);
      }
      SplitFromCuts(s, e);
      EndsInRange(s, e);
    }
  }

  /**
   * `camel_case_split` on a string without newlines: non-empty parts whose
   * concatenation is the input, split exactly at the cut positions.
   */
  lemma CamelCaseSplitSpec(token: string)
    requires '\n' !in token
    ensures Concat(CamelCaseSplit(token)) == token
    ensures forall i :: 0 <= i < |CamelCaseSplit(token)| ==> CamelCaseSplit(token)[i] != []
    ensures forall q :: 0 < q < |token| ==> (q in Ends(CamelCaseSplit(token), 0) <==> IsCut(token, q))
  {
    SplitFromConcat(token, 0);
    SplitFromCuts(token, 0);
  }

  // ---------------------------------------------------------------------
  // camel_case_to_title
  // ---------------------------------------------------------------------

  /** The `i`-th word of a title: first and last verbatim, little interior words lower-cased. */
  function TitleWord(words: seq<string>, i: nat): string
    requires i < |words|
  {
    if i == 0 || i == |words| - 1 then words[i]
    else if Lower(words[i]) in LITTLE_WORDS then Lower(words[i])
    else words[i]
  }

  function TitleWords(words: seq<string>): seq<string> {
    seq(|words|, i requires 0 <= i < |words| => TitleWord(words, i))
  }

  /** `camel_case_to_title(token)`, as a value. */
  function Title(token: string): string {
    Join(TitleWords(CamelCaseSplit(token)), " ")
  }

  /** `camel_case_to_title(token)`: collects the title words in a loop and joins them with spaces. */
  method CamelCaseToTitle(token: string) returns (title: string)
    ensures title == Title(token)
  {
    var words := CamelCaseSplit(token);
    var newWords: seq<string> := [];
    for i := 0 to |words|
      invariant newWords == TitleWords(words)[..i]
    {
      if i == 0 || i == |words| - 1 {
        newWords := newWords + [words[i]];
      } else if Lower(words[i]) in LITTLE_WORDS {
        newWords := newWords + [Lower(words[i])];
      } else {
        newWords := newWords + [words[i]];
      }
    }
    assert newWords == TitleWords(words);
    title := Join(newWords, " ");
  }

  /**
   * The title has one word per part.  A word differs from its part only in
   * letter case, and only an interior part whose lower-case form is a
   * little word is changed: it is lower-cased.
   */
  lemma TitleWordsOnlyRecase(words: seq<string>)
    ensures |TitleWords(words)| == |words|
    ensures forall i :: 0 <= i < |words| ==> Lower(TitleWords(words)[i]) == Lower(words[i])
    ensures forall i :: 0 <= i < |words| && TitleWords(words)[i] != words[i] ==>
      0 < i < |words| - 1 && Lower(words[i]) in LITTLE_WORDS && TitleWords(words)[i] == Lower(words[i])
    ensures |words| > 0 ==> TitleWords(words)[0] == words[0] && TitleWords(words)[|words| - 1] == words[|words| - 1]
    ensures forall i :: 0 < i < |words| - 1 && Lower(words[i]) in LITTLE_WORDS ==>
      TitleWords(words)[i] == Lower(words[i])
    ensures forall i :: 0 <= i < |words| && !(0 < i < |words| - 1 && Lower(words[i]) in LITTLE_WORDS) ==>
      TitleWords(words)[i] == words[i]
  {
    forall i | 0 <= i < |words| ensures Lower(TitleWords(words)[i]) == Lower(words[i]) {
      LowerIdempotent(words[i]);
    }
  }

  /** The parts `Layouts`, `And`, `Callbacks` give the title words `Layouts`, `and`, `Callbacks`. */
  lemma TitleWordsExample()
    ensures TitleWords(["Layouts", "And", "Callbacks"]) == ["Layouts", "and", "Callbacks"]
    ensures Join(TitleWords(["Layouts", "And", "Callbacks"]), " ") == "Layouts and Callbacks"
  {
    var tw := TitleWords(["Layouts", "And", "Callbacks"]);
    assert Lower("And") == "and";
    assert tw[1] == "and";
    assert tw == ["Layouts", "and", "Callbacks"];
  }

  lemma {:induction false} LowerConcat(ws: seq<string>)
    ensures Lower(Concat(ws)) == Concat(LowerAll(ws))
  {
    if ws != [] {
      LowerConcat(ws[1..]);
      LowerAppend(ws[0], Concat(ws[1..]));
      assert LowerAll(ws)[1..] == LowerAll(ws[1..]);
    }
  }

  /** Read without its spaces, a title spells the class name, up to letter case. */
  lemma TitleSpellsToken(token: string)
    requires '\n' !in token
    ensures Lower(Concat(TitleWords(CamelCaseSplit(token)))) == Lower(token)
  {
    var parts := CamelCaseSplit(token);
    var tw := TitleWords(parts);
    CamelCaseSplitSpec(token);
    TitleWordsOnlyRecase(parts);
    LowerConcat(tw);
    LowerConcat(parts);
    assert LowerAll(tw) == LowerAll(parts);
  }
}
