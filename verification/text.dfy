/** The few Python `str` operations the tutor relies on, with Python's
    meaning: `strip()` and `split()` use the whitespace set of
    `str.isspace()`, `in` is substring containment, `replace` of a single
    character. `lower()`/`upper()` are modelled on ASCII letters only. */
module Text {

  import Seqs

  /** `c.isspace()` in Python: the characters `strip()` removes and `split()` splits on. */
  predicate IsSpace(c: char)
  {
    || c == ' '
    || '\t' <= c <= '\r'
    || '\U{1c}' <= c <= '\U{1f}'
    || c == '\U{85}' || c == '\U{a0}' || c == '\U{1680}'
    || '\U{2000}' <= c <= '\U{200a}'
    || c == '\U{2028}' || c == '\U{2029}' || c == '\U{202f}' || c == '\U{205f}'
    || c == '\U{3000}'
  }

  predicate AllSpace(s: string)
  {
    forall k :: 0 <= k < |s| ==> IsSpace(s[k])
  }

  /** Number of whitespace characters at the start of `s`. */
  function Lead(s: string): (n: nat)
    ensures n <= |s|
    ensures forall k :: 0 <= k < n ==> IsSpace(s[k])
    ensures n < |s| ==> !IsSpace(s[n])
  {
    if |s| > 0 && IsSpace(s[0]) then 1 + Lead(s[1..]) else 0
  }

  /** End of `s` once trailing whitespace is cut off. */
  function Trail(s: string): (n: nat)
    ensures n <= |s|
    ensures forall k :: n <= k < |s| ==> IsSpace(s[k])
    ensures n > 0 ==> !IsSpace(s[n - 1])
  {
    if |s| > 0 && IsSpace(s[|s| - 1]) then Trail(s[..|s| - 1]) else |s|
  }

  /** `s.strip()`: the slice of `s` left once leading and trailing whitespace
      is removed; it is empty exactly when `s` is all whitespace. */
  function Strip(s: string): (r: string)
    ensures Lead(s) + |r| <= |s| && r == s[Lead(s)..Lead(s) + |r|]
    ensures forall k :: Lead(s) + |r| <= k < |s| ==> IsSpace(s[k])
    ensures r == [] <==> AllSpace(s)
    ensures r != [] ==> !IsSpace(r[0]) && !IsSpace(r[|r| - 1])
  {
    var i := Lead(s);
    if i == |s| then [] else s[i..Trail(s)]
  }

  /** A token `split()` can produce: non-empty and free of whitespace. */
  predicate IsWord(w: string)
  {
    |w| > 0 && forall k :: 0 <= k < |w| ==> !IsSpace(w[k])
  }

  /** Length of the run of non-whitespace characters at the start of `s`. */
  function WordLen(s: string): (n: nat)
    ensures n <= |s|
    ensures forall k :: 0 <= k < n ==> !IsSpace(s[k])
    ensures n < |s| ==> IsSpace(s[n])
  {
    if |s| > 0 && !IsSpace(s[0]) then 1 + WordLen(s[1..]) else 0
  }

  /** `s.split()` with no separator: the maximal whitespace-free runs of `s`,
      in order; runs of whitespace separate tokens and no token is empty. */
  function Split(s: string): (words: seq<string>)
    ensures forall k :: 0 <= k < |words| ==> IsWord(words[k])
    decreases |s|, 1
  {
    var i := Lead(s);
    if i == |s| then [] else Tokens(s[i..])
  }

  /** `Split` of a string that starts with a non-whitespace character: the
      first run, then the split of what follows it. */
  function Tokens(u: string): (words: seq<string>)
    requires u != [] && !IsSpace(u[0])
    ensures forall k :: 0 <= k < |words| ==> IsWord(words[k])
    decreases |u|, 0
  {
    var n := WordLen(u);
    [u[..n]] + Split(u[n..])
  }

  /** `" ".join(words)`. */
  function Join(words: seq<string>): string
  {
    if |words| == 0 then ""
    else if |words| == 1 then words[0]
    else words[0] + (" " + Join(words[1..]))
  }

  lemma {:induction false} WordLenOfWordThenSpace(w: string, t: string)
    requires IsWord(w)
    requires t == [] || IsSpace(t[0])
    ensures WordLen(w + t) == |w|
    decreases |w|
  {
    if |w| > 1 {
      assert (w + t)[1..] == w[1..] + t;
      WordLenOfWordThenSpace(w[1..], t);
    } else {
      assert (w + t)[1..] == t;
    }
  }

  /** `split()` looks only at what follows the leading whitespace. */
  lemma SplitAfterLead(s: string)
    ensures Split(s) == Split(s[Lead(s)..])
  {
    var u := s[Lead(s)..];
    if u != [] {
      assert Lead(u) == 0 by { assert u[0] == s[Lead(s)]; }
      assert u[0..] == u;
    }
  }

  lemma {:induction false} SplitSkipsLeadingSpace(t: string)
    ensures Split(" " + t) == Split(t)
  {
    var s := " " + t;
    assert s[0] == ' ' && s[1..] == t;
    assert Lead(s) == 1 + Lead(t);
    assert s[1 + Lead(t)..] == t[Lead(t)..];
    SplitAfterLead(s);
    SplitAfterLead(t);
  }

  /** A word followed by whitespace (or nothing) is split off as the first token. */
  lemma SplitWordThen(w: string, rest: string)
    requires IsWord(w)
    requires rest == [] || IsSpace(rest[0])
    ensures Split(w + rest) == [w] + Split(rest)
  {
    var s := w + rest;
    assert s[0] == w[0];
    assert Lead(s) == 0;
    assert s[0..] == s;
    WordLenOfWordThenSpace(w, rest);
    assert s[..|w|] == w;
    assert s[|w|..] == rest;
  }

  /** Splitting a space-joined list of tokens gives the tokens back. */
  lemma {:induction false} SplitJoin(words: seq<string>)
    requires forall k :: 0 <= k < |words| ==> IsWord(words[k])
    ensures Split(Join(words)) == words
  {
    if |words| == 1 {
      SplitWordThen(words[0], "");
      assert words[0] + "" == words[0];
    } else if |words| > 1 {
      var w, tail := words[0], words[1..];
      var rest := Join(tail);
      assert IsWord(w);
      assert forall k :: 0 <= k < |tail| ==> IsWord(tail[k]) by {
        forall k | 0 <= k < |tail| ensures IsWord(tail[k]) { assert tail[k] == words[k + 1]; }
      }
      calc {
        Split(Join(words));
        Split(w + (" " + rest));
        { SplitWordThen(w, " " + rest); }
        [w] + Split(" " + rest);
        { SplitSkipsLeadingSpace(rest); }
        [w] + Split(rest);
        { SplitJoin(tail); }
        [w] + tail;
        words;
      }
    }
  }

  /** `gaps[0] + words[0] + gaps[1] + ... + words[n-1] + gaps[n]`. */
  function Interleave(gaps: seq<string>, words: seq<string>): string
    requires |gaps| == |words| + 1
  {
    if |words| == 0 then gaps[0]
    else gaps[0] + (words[0] + Interleave(gaps[1..], words[1..]))
  }

  /** `s` is `words` separated by runs of whitespace: every gap is whitespace,
      the gaps between two words are not empty, and no word holds
      whitespace. */
  predicate Tokenisation(s: string, gaps: seq<string>, words: seq<string>)
  {
    && |gaps| == |words| + 1
    && (forall k :: 0 <= k < |gaps| ==> AllSpace(gaps[k]))
    && (forall k :: 0 < k < |words| ==> gaps[k] != [])
    && (forall k :: 0 <= k < |words| ==> IsWord(words[k]))
    && s == Interleave(gaps, words)
  }

  lemma {:induction false} LeadAfterSpaces(g: string, t: string)
    requires AllSpace(g)
    ensures Lead(g + t) == |g| + Lead(t)
    decreases |g|
  {
    if |g| > 0 {
      assert (g + t)[0] == g[0];
      assert (g + t)[1..] == g[1..] + t;
      LeadAfterSpaces(g[1..], t);
    } else {
      assert g + t == t;
    }
  }

  /** Leading whitespace of any kind does not change `split()`. */
  lemma SplitSkipsSpaces(g: string, t: string)
    requires AllSpace(g)
    ensures Split(g + t) == Split(t)
  {
    var i := Lead(t);
    LeadAfterSpaces(g, t);
    Seqs.DropAppend(g, t, i);
    var u := (g + t)[Lead(g + t)..];
    assert u == t[i..];
    SplitAfterLead(g + t);
    SplitAfterLead(t);
  }

  /** The text after the first word of a tokenisation starts with whitespace
      or is empty, and is itself tokenised by the remaining gaps and words. */
  lemma TokenisationTail(s: string, gaps: seq<string>, words: seq<string>)
    requires Tokenisation(s, gaps, words) && |words| > 0
    ensures var rest := Interleave(gaps[1..], words[1..]);
      && s == gaps[0] + (words[0] + rest)
      && (rest == [] || IsSpace(rest[0]))
      && Tokenisation(rest, gaps[1..], words[1..])
  {
    var rest := Interleave(gaps[1..], words[1..]);
    assert AllSpace(gaps[1]);
    if |words| > 1 {
      assert gaps[1] != [];
      assert rest[0] == gaps[1][0];
    }
    assert forall k :: 0 < k < |words[1..]| ==> gaps[1..][k] == gaps[k + 1];
    assert forall k :: 0 <= k < |words[1..]| ==> words[1..][k] == words[k + 1];
  }

  /** `split()` gives the words of every tokenisation of `s`: the tokens are
      exactly the maximal whitespace-free runs, in order. */
  lemma {:induction false} SplitUnique(s: string, gaps: seq<string>, words: seq<string>)
    requires Tokenisation(s, gaps, words)
    ensures Split(s) == words
    decreases |words|
  {
    if |words| == 0 {
      assert s == gaps[0] + [];
      SplitSkipsSpaces(gaps[0], []);
    } else {
      var rest := Interleave(gaps[1..], words[1..]);
      TokenisationTail(s, gaps, words);
      calc {
        Split(s);
        { SplitSkipsSpaces(gaps[0], words[0] + rest); }
        Split(words[0] + rest);
        { SplitWordThen(words[0], rest); }
        [words[0]] + Split(rest);
        { SplitUnique(rest, gaps[1..], words[1..]); }
        [words[0]] + words[1..];
        words;
      }
    }
  }

  /** Putting whitespace and a word in front of a tokenised text that starts
      with whitespace (or is empty) gives a tokenisation of the whole. */
  lemma TokenisationCons(g: string, w: string, r: string, gs: seq<string>, ws: seq<string>)
    requires AllSpace(g) && IsWord(w)
    requires r == [] || IsSpace(r[0])
    requires Tokenisation(r, gs, ws)
    ensures Tokenisation(g + (w + r), [g] + gs, [w] + ws)
  {
    var gaps, words := [g] + gs, [w] + ws;
    if |ws| > 0 {
      var rest := Interleave(gs[1..], ws[1..]);
      assert r == gs[0] + (ws[0] + rest);
      assert (ws[0] + rest)[0] == ws[0][0];
      assert r[0] == (gs[0] + (ws[0] + rest))[0];
    }
    assert gaps[1..] == gs && words[1..] == ws;
    assert forall k :: 1 <= k < |gaps| ==> gaps[k] == gs[k - 1];
    assert forall k :: 1 <= k < |words| ==> words[k] == ws[k - 1];
  }

  /** Every text has a tokenisation whose words are its `split()`. */
  lemma {:induction false} SplitTokenises(s: string)
    ensures exists gaps :: Tokenisation(s, gaps, Split(s))
    decreases |s|
  {
    var i := Lead(s);
    if i == |s| {
      assert AllSpace(s);
      assert Tokenisation(s, [s], Split(s));
    } else {
      var u := s[i..];
      var n := WordLen(u);
      var g, w, r := s[..i], u[..n], u[n..];
      assert Split(s) == [w] + Split(r);
      assert s == g + (w + r);
      assert AllSpace(g);
      assert r == [] || IsSpace(r[0]);
      SplitTokenises(r);
      var gs :| Tokenisation(r, gs, Split(r));
      TokenisationCons(g, w, r, gs, Split(r));
      assert Tokenisation(s, [g] + gs, Split(s));
    }
  }

  function LowerChar(c: char): char
  {
    if 'A' <= c <= 'Z' then (c as int + 32) as char else c
  }

  function UpperChar(c: char): char
  {
    if 'a' <= c <= 'z' then (c as int - 32) as char else c
  }

  /** `s.lower()` restricted to ASCII letters. */
  function Lower(s: string): (r: string)
    ensures |r| == |s|
    ensures forall k :: 0 <= k < |s| ==> r[k] == LowerChar(s[k])
  {
    seq(|s|, k requires 0 <= k < |s| => LowerChar(s[k]))
  }

  /** No ASCII capital letter occurs in `s`. */
  predicate NoCapitals(s: string)
  {
    forall k :: 0 <= k < |s| ==> !('A' <= s[k] <= 'Z')
  }

  /** A string without capitals is its own lower-case form. */
  lemma LowerKeeps(s: string)
    requires NoCapitals(s)
    ensures Lower(s) == s
  {
  }

  /** `s.upper()` restricted to ASCII letters. */
  function Upper(s: string): (r: string)
    ensures |r| == |s|
    ensures forall k :: 0 <= k < |s| ==> r[k] == UpperChar(s[k])
  {
    seq(|s|, k requires 0 <= k < |s| => UpperChar(s[k]))
  }

  /** Upper-casing a string without capitals and lower-casing it again gives it back. */
  lemma LowerUpper(s: string)
    requires NoCapitals(s)
    ensures Lower(Upper(s)) == s
  {
  }

  /** `w` occurs in `s` starting at index `i`. */
  predicate OccursAt(s: string, w: string, i: nat)
  {
    i + |w| <= |s| && s[i..i + |w|] == w
  }

  /** `w in s` for strings: `w` occurs in `s` as a contiguous substring. */
  predicate Contains(s: string, w: string)
  {
    exists i: nat :: i <= |s| && OccursAt(s, w, i)
  }

  /** `any(t in s for t in terms)`. */
  predicate ContainsAny(s: string, terms: seq<string>)
  {
    exists t :: t in terms && Contains(s, t)
  }

  /** A one-character pattern occurs exactly when the character does. */
  lemma ContainsChar(s: string, c: char)
    ensures Contains(s, [c]) <==> c in s
  {
    if c in s {
      var i :| 0 <= i < |s| && s[i] == c;
      assert OccursAt(s, [c], i);
    }
    if Contains(s, [c]) {
      var i: nat :| i <= |s| && OccursAt(s, [c], i);
      assert s[i..i + 1][0] == s[i];
    }
  }

  /** Lower-casing both sides keeps an occurrence: the substring tests the
      tutor makes after `lower()` are case-insensitive in this sense. */
  lemma ContainsLower(s: string, w: string)
    requires Contains(s, w)
    ensures Contains(Lower(s), Lower(w))
  {
    var i: nat :| i <= |s| && OccursAt(s, w, i);
    var ls := Lower(s);
    assert forall k :: 0 <= k < |w| ==> s[i + k] == w[k] by {
      forall k | 0 <= k < |w| ensures s[i + k] == w[k] {
        assert s[i..i + |w|][k] == s[i + k];
      }
    }
    assert ls[i..i + |w|] == Lower(w);
    assert OccursAt(ls, Lower(w), i);
  }

  /** `s[:n]` for `n >= 0`. */
  function Take(s: string, n: nat): (r: string)
    ensures |r| == if |s| <= n then |s| else n
    ensures r == s[..|r|]
  {
    if |s| <= n then s else s[..n]
  }

  /** `s.replace(c, "")` for a single character `c`: every `c` goes and
      every other character stays. */
  function Without(s: string, c: char): (r: string)
    ensures forall x :: x in r <==> x in s && x != c
  {
    if |s| == 0 then ""
    else
      assert s == [s[0]] + s[1..];
      (if s[0] == c then "" else [s[0]]) + Without(s[1..], c)
  }

  /** `replace(c, "")` works character by character: a one-character
      string loses exactly a `c`. */
  lemma WithoutChar(x: char, c: char)
    ensures Without([x], c) == if x == c then [] else [x]
  {
    assert [x][1..] == [];
  }

  /** ... and keeps order: the result for a concatenation is the
      concatenation of the results. */
  lemma {:induction false} WithoutAppend(a: string, b: string, c: char)
    ensures Without(a + b, c) == Without(a, c) + Without(b, c)
    decreases |a|
  {
    if |a| == 0 {
      assert a + b == b;
    } else {
      var head := if a[0] == c then "" else [a[0]];
      calc {
        Without(a + b, c);
        { assert (a + b)[0] == a[0]; }
        head + Without((a + b)[1..], c);
        { assert (a + b)[1..] == a[1..] + b; }
        head + Without(a[1..] + b, c);
        { WithoutAppend(a[1..], b, c); }
        head + (Without(a[1..], c) + Without(b, c));
        (head + Without(a[1..], c)) + Without(b, c);
        Without(a, c) + Without(b, c);
      }
    }
  }
}
