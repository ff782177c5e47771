/**
 * `convert_to_md`: the search API marks hits with an HTML highlight tag
 * pair, and the bot turns both tags into the Markdown bold marker.
 *
 * The code applies Python's `str.replace` once per entry of a two-entry
 * mapping (the opening tag first, then the closing tag). `ReplaceAll`
 * models `str.replace`, `ApplyMapping` the loop over the mapping, and
 * `MarkToStar` is an independent one-pass reading of the same rewrite:
 * scan left to right and turn either tag into `*`, keeping every other
 * character as it is.
 */
module Markdown {

  const OpenTag: string := "<mark class=\"mark\">"
  const CloseTag: string := "</mark>"
  const Star: string := "*"

  /** The mapping, in its insertion order; `PassOrderIrrelevant` shows the result does not depend on that order. */
  const MdMapping: seq<(string, string)> := [(OpenTag, Star), (CloseTag, Star)]

  predicate OccursAt(pat: string, s: string, i: nat)
    requires i <= |s|
  {
    pat <= s[i..]
  }

  /** `pat` is a substring of `s`. */
  predicate Contains(s: string, pat: string) {
    exists i :: 0 <= i <= |s| && OccursAt(pat, s, i)
  }

  predicate NoChar(s: string, c: char) {
    forall i :: 0 <= i < |s| ==> s[i] != c
  }

  /** Python's `s.replace(pat, rep)` for a non-empty `pat`: leftmost, non-overlapping. */
  function ReplaceAll(s: string, pat: string, rep: string): string
    requires |pat| > 0
    decreases |s|
  {
    if s == [] then []
    else if pat <= s then rep + ReplaceAll(s[|pat|..], pat, rep)
    else [s[0]] + ReplaceAll(s[1..], pat, rep)
  }

  /** `text` after `text = text.replace(k, v)` for each `(k, v)` of `m` in order. */
  function ApplyMapping(m: seq<(string, string)>, text: string): string
    requires forall k :: 0 <= k < |m| ==> |m[k].0| > 0
  {
    if m == [] then text
    else ReplaceAll(ApplyMapping(m[..|m| - 1], text), m[|m| - 1].0, m[|m| - 1].1)
  }

  /** One left-to-right pass that turns each highlight tag into `*`. */
  function MarkToStar(s: string): string
    decreases |s|
  {
    if s == [] then []
    else if OpenTag <= s then Star + MarkToStar(s[|OpenTag|..])
    else if CloseTag <= s then Star + MarkToStar(s[|CloseTag|..])
    else [s[0]] + MarkToStar(s[1..])
  }

  /** The loop of `convert_to_md`, rebinding the text once per mapping entry. */
  method ConvertToMd(text: string) returns (r: string)
    ensures r == MarkToStar(text)
  {
    var mapping := MdMapping;
    r := text;
    for i := 0 to |mapping|
      invariant r == ApplyMapping(mapping[..i], text)
    {
      var (k, v) := mapping[i];
      assert mapping[..i + 1][..i] == mapping[..i];
      r := ReplaceAll(r, k, v);
    }
    assert mapping[..|mapping|] == mapping;
    MappingIsOnePass(text);
  }

  // ---------------------------------------------------------------------
  // The two `str.replace` passes agree with the one-pass reading.

  lemma PrefixByHead(a: string, b: string)
    requires a != [] && b != []
    ensures a <= b <==> a[0] == b[0] && a[1..] <= b[1..]
  {
  }

  /** Characters other than '<' cannot start a pattern that begins with '<', so `str.replace` copies them. */
  lemma {:induction false} CopyWithoutLt(u: string, t: string, pat: string)
    requires |pat| > 0 && pat[0] == '<' && NoChar(u, '<')
    ensures ReplaceAll(u + t, pat, Star) == u + ReplaceAll(t, pat, Star)
    decreases |u|
  {
    if u != [] {
      assert (u + t)[0] == u[0] != pat[0];
      PrefixByHead(pat, u + t);
      assert (u + t)[1..] == u[1..] + t;
      assert NoChar(u[1..], '<') by {
        forall i | 0 <= i < |u[1..]| ensures u[1..][i] != '<' { assert u[1..][i] == u[i + 1]; }
      }
      CopyWithoutLt(u[1..], t, pat);
      var x := u + t;
      assert x != [] && !(pat <= x);
      assert ReplaceAll(x, pat, Star) == [x[0]] + ReplaceAll(x[1..], pat, Star);
      assert [u[0]] + (u[1..] + ReplaceAll(t, pat, Star)) == u + ReplaceAll(t, pat, Star);
    } else {
      assert u + t == t;
    }
  }

  /** A prefix without '*' of the output of a replace by '*' was already a prefix of its input. */
  lemma {:induction false} ReplaceKeepsStarFreePrefix(w: string, x: string, pat: string)
    requires |pat| > 0 && NoChar(w, '*')
    ensures w <= ReplaceAll(x, pat, Star) ==> w <= x
    decreases |x|
  {
    if w != [] && w <= ReplaceAll(x, pat, Star) {
      assert x != [];
      assert w[0] == ReplaceAll(x, pat, Star)[0] != '*';
      assert !(pat <= x);
      assert NoChar(w[1..], '*') by {
        forall i | 0 <= i < |w[1..]| ensures w[1..][i] != '*' { assert w[1..][i] == w[i + 1]; }
      }
      ReplaceKeepsStarFreePrefix(w[1..], x[1..], pat);
    }
  }

  lemma {:induction false} MappingIsOnePass(s: string)
    ensures ApplyMapping(MdMapping, s) == MarkToStar(s)
  {
    var first := MdMapping[..1];
    assert first == [(OpenTag, Star)];
    assert first[..0] == [];
    assert ApplyMapping(first, s) == ReplaceAll(s, OpenTag, Star);
    assert MdMapping[..|MdMapping| - 1] == first;
    assert MdMapping[|MdMapping| - 1] == (CloseTag, Star);
    assert ApplyMapping(MdMapping, s) == ReplaceAll(ReplaceAll(s, OpenTag, Star), CloseTag, Star);
    TwoPassesAreOnePass(s);
  }

  lemma {:induction false} TwoPassesAreOnePass(s: string)
    ensures ReplaceAll(ReplaceAll(s, OpenTag, Star), CloseTag, Star) == MarkToStar(s)
    decreases |s|
  {
    if s == [] {
    } else if OpenTag <= s {
      var rest := ReplaceAll(s[|OpenTag|..], OpenTag, Star);
      var x := Star + rest;
      assert ReplaceAll(s, OpenTag, Star) == x;
      assert x[0] == '*' != CloseTag[0];
      assert x[1..] == rest;
      assert ReplaceAll(x, CloseTag, Star) == Star + ReplaceAll(rest, CloseTag, Star);
      TwoPassesAreOnePass(s[|OpenTag|..]);
    } else if CloseTag <= s {
      var t := s[|CloseTag|..];
      assert s == CloseTag + t;
      assert s[0] == '<' && s[1] == '/' && OpenTag[1] == 'm';
      assert s[1..] == CloseTag[1..] + t;
      CopyWithoutLt(CloseTag[1..], t, OpenTag);
      var r1 := ReplaceAll(t, OpenTag, Star);
      assert ReplaceAll(s, OpenTag, Star) == CloseTag + r1;
      assert (CloseTag + r1)[|CloseTag|..] == r1;
      TwoPassesAreOnePass(t);
    } else {
      var r1 := ReplaceAll(s[1..], OpenTag, Star);
      var x := [s[0]] + r1;
      assert ReplaceAll(s, OpenTag, Star) == x;
      ReplaceKeepsStarFreePrefix(CloseTag[1..], s[1..], OpenTag);
      assert x[0] == s[0] && x[1..] == r1;
      PrefixByHead(CloseTag, x);
      PrefixByHead(CloseTag, s);
      assert !(CloseTag <= x);
      assert x[1..] == r1;
      TwoPassesAreOnePass(s[1..]);
    }
  }

  /**
   * The order of the two passes does not matter: replacing the closing tag
   * first and the opening tag second gives the same one-pass rewrite, so
   * the result does not rest on the order a dict iterates its entries in.
   */
  lemma {:induction false} PassOrderIrrelevant(s: string)
    ensures ReplaceAll(ReplaceAll(s, CloseTag, Star), OpenTag, Star) == MarkToStar(s)
    decreases |s|
  {
    if s == [] {
    } else if OpenTag <= s {
      var t := s[|OpenTag|..];
      assert s == OpenTag + t;
      assert s[1] == 'm' && CloseTag[1] == '/';
      assert !(CloseTag <= s);
      assert s[1..] == OpenTag[1..] + t;
      CopyWithoutLt(OpenTag[1..], t, CloseTag);
      var r1 := ReplaceAll(t, CloseTag, Star);
      assert ReplaceAll(s, CloseTag, Star) == [s[0]] + (OpenTag[1..] + r1);
      assert [s[0]] + (OpenTag[1..] + r1) == OpenTag + r1;
      assert (OpenTag + r1)[|OpenTag|..] == r1;
      PassOrderIrrelevant(t);
    } else if CloseTag <= s {
      var rest := ReplaceAll(s[|CloseTag|..], CloseTag, Star);
      var x := Star + rest;
      assert ReplaceAll(s, CloseTag, Star) == x;
      assert x[0] == '*' != OpenTag[0];
      assert x[1..] == rest;
      assert ReplaceAll(x, OpenTag, Star) == Star + ReplaceAll(rest, OpenTag, Star);
      PassOrderIrrelevant(s[|CloseTag|..]);
    } else {
      var r1 := ReplaceAll(s[1..], CloseTag, Star);
      var x := [s[0]] + r1;
      assert ReplaceAll(s, CloseTag, Star) == x;
      ReplaceKeepsStarFreePrefix(OpenTag[1..], s[1..], CloseTag);
      assert x[0] == s[0] && x[1..] == r1;
      PrefixByHead(OpenTag, x);
      PrefixByHead(OpenTag, s);
      assert !(OpenTag <= x);
      PassOrderIrrelevant(s[1..]);
    }
  }

  // ---------------------------------------------------------------------
  // What the rewrite promises.

  /** The input left after the first output character of `MarkToStar`. */
  function Rest(s: string): string
    requires s != []
  {
    if OpenTag <= s then s[|OpenTag|..]
    else if CloseTag <= s then s[|CloseTag|..]
    else s[1..]
  }

  lemma Unfold(s: string)
    requires s != []
    ensures MarkToStar(s) == [MarkToStar(s)[0]] + MarkToStar(Rest(s))
    ensures MarkToStar(s)[0] == '*' || (MarkToStar(s)[0] == s[0] && Rest(s) == s[1..]
                                        && !(OpenTag <= s) && !(CloseTag <= s))
  {
  }

  /** A prefix without '*' of converted text was already a prefix of the original. */
  lemma {:induction false} StarFreePrefix(w: string, x: string)
    requires NoChar(w, '*')
    ensures w <= MarkToStar(x) ==> w <= x
    decreases |x|
  {
    if w != [] && w <= MarkToStar(x) {
      assert x != [];
      Unfold(x);
      assert w[0] == MarkToStar(x)[0] != '*';
      assert NoChar(w[1..], '*') by {
        forall i | 0 <= i < |w[1..]| ensures w[1..][i] != '*' { assert w[1..][i] == w[i + 1]; }
      }
      StarFreePrefix(w[1..], x[1..]);
    }
  }

  /** No tag starts at the first character of converted text. */
  lemma NoTagAtFront(s: string)
    requires s != []
    ensures !(OpenTag <= MarkToStar(s)) && !(CloseTag <= MarkToStar(s))
  {
    Unfold(s);
    var r, tail := MarkToStar(s), MarkToStar(Rest(s));
    if r[0] != '*' {
      StarFreePrefix(OpenTag[1..], s[1..]);
      StarFreePrefix(CloseTag[1..], s[1..]);
      assert r[0] == s[0] && r[1..] == tail;
      PrefixByHead(OpenTag, r);
      PrefixByHead(OpenTag, s);
      PrefixByHead(CloseTag, r);
      PrefixByHead(CloseTag, s);
    }
  }

  /** The converted text contains neither tag. */
  lemma {:induction false} NoTagsLeft(s: string)
    ensures !Contains(MarkToStar(s), OpenTag)
    ensures !Contains(MarkToStar(s), CloseTag)
    decreases |s|
  {
    if s != [] {
      NoTagsLeft(Rest(s));
      Unfold(s);
      NoTagAtFront(s);
      var r, tail := MarkToStar(s), MarkToStar(Rest(s));
      forall i | 0 <= i <= |r|
        ensures !OccursAt(OpenTag, r, i) && !OccursAt(CloseTag, r, i)
      {
        if i > 0 {
          assert r[i..] == tail[i - 1..];
          assert !OccursAt(OpenTag, tail, i - 1) && !OccursAt(CloseTag, tail, i - 1);
        }
      }
    }
  }

  /** Text containing neither tag is left unchanged. */
  lemma {:induction false} IdentityWithoutTags(s: string)
    requires !Contains(s, OpenTag) && !Contains(s, CloseTag)
    ensures MarkToStar(s) == s
    decreases |s|
  {
    if s != [] {
      assert !OccursAt(OpenTag, s, 0) && !OccursAt(CloseTag, s, 0);
      assert s[0..] == s;
      forall i | 0 <= i <= |s[1..]|
        ensures !OccursAt(OpenTag, s[1..], i) && !OccursAt(CloseTag, s[1..], i)
      {
        assert s[1..][i..] == s[i + 1..];
        assert !OccursAt(OpenTag, s, i + 1) && !OccursAt(CloseTag, s, i + 1);
      }
      IdentityWithoutTags(s[1..]);
    }
  }

  /** Converting twice is converting once. */
  lemma Idempotent(s: string)
    ensures MarkToStar(MarkToStar(s)) == MarkToStar(s)
  {
    NoTagsLeft(s);
    IdentityWithoutTags(MarkToStar(s));
  }

  /** Every occurrence of an opening tag at the front becomes `*`, whatever follows. */
  lemma OpenTagBecomesStar(t: string)
    ensures MarkToStar(OpenTag + t) == Star + MarkToStar(t)
  {
    assert (OpenTag + t)[|OpenTag|..] == t;
  }

  /** A closing tag at the front becomes `*`, whatever follows. */
  lemma CloseTagBecomesStar(t: string)
    ensures MarkToStar(CloseTag + t) == Star + MarkToStar(t)
  {
    assert !(OpenTag <= CloseTag + t) by {
      assert (CloseTag + t)[1] == '/';
    }
    assert (CloseTag + t)[|CloseTag|..] == t;
  }

  // ---------------------------------------------------------------------
  // Where converted text may be cut into independently converted pieces.

  /** `u` starts with a character that cannot end a tag, followed by one that no tag contains. */
  predicate SafeStart(u: string) {
    |u| >= 2 && u[0] != '>' && u[1] !in OpenTag && u[1] !in CloseTag
  }

  /** Whatever follows a safely starting string, it still starts safely. */
  lemma SafeStartExtends(u: string, v: string)
    requires SafeStart(u)
    ensures SafeStart(u + v)
  {
    assert (u + v)[0] == u[0] && (u + v)[1] == u[1];
  }

  /** A tag cannot start inside `t` and run on into a safely starting `u`. */
  lemma NoTagAcross(tag: string, t: string, u: string)
    requires tag == OpenTag || tag == CloseTag
    requires SafeStart(u)
    ensures tag <= t + u ==> |t| >= |tag|
  {
    if |t| < |tag| {
      var x := t + u;
      if |t| == |tag| - 1 {
        assert x[|t|] == u[0] != tag[|t|];
      } else {
        assert x[|t| + 1] == u[1];
        assert tag[|t| + 1] in tag;
        assert x[|t| + 1] != tag[|t| + 1];
      }
    }
  }

  /** With `u` starting safely, a tag starts `t + u` exactly when it starts `t`. */
  lemma TagStartsBefore(tag: string, t: string, u: string)
    requires tag == OpenTag || tag == CloseTag
    requires SafeStart(u)
    ensures tag <= t + u <==> tag <= t
  {
    NoTagAcross(tag, t, u);
    if |t| >= |tag| {
      assert (t + u)[..|tag|] == t[..|tag|];
    }
  }

  /** Converting `t + u` converts `t` and `u` separately when `u` starts safely. */
  lemma {:induction false} SplitBeforeSafeStart(t: string, u: string)
    requires SafeStart(u)
    ensures MarkToStar(t + u) == MarkToStar(t) + MarkToStar(u)
    decreases |t|
  {
    var x := t + u;
    if t == [] {
      assert x == u;
    } else {
      TagStartsBefore(OpenTag, t, u);
      TagStartsBefore(CloseTag, t, u);
      if OpenTag <= t {
        assert x[|OpenTag|..] == t[|OpenTag|..] + u;
        SplitBeforeSafeStart(t[|OpenTag|..], u);
      } else if CloseTag <= t {
        assert x[|CloseTag|..] == t[|CloseTag|..] + u;
        SplitBeforeSafeStart(t[|CloseTag|..], u);
      } else {
        assert x[0] == t[0] && x[1..] == t[1..] + u;
        SplitBeforeSafeStart(t[1..], u);
      }
    }
  }

  /** In either tag, '<' occurs only as the first character. */
  lemma LtOnlyFirst(tag: string)
    requires tag == OpenTag || tag == CloseTag
    ensures forall k :: 1 <= k < |tag| ==> tag[k] != '<'
  {
  }

  /** With `u` starting with '<', a tag starts a non-empty `t + u` exactly when it starts `t`. */
  lemma TagStartsBeforeLt(tag: string, t: string, u: string)
    requires tag == OpenTag || tag == CloseTag
    requires t != [] && u != [] && u[0] == '<'
    ensures tag <= t + u <==> tag <= t
  {
    if |t| >= |tag| {
      assert (t + u)[..|tag|] == t[..|tag|];
    } else {
      LtOnlyFirst(tag);
      assert (t + u)[|t|] == '<';
      assert tag[|t|] != '<';
    }
  }

  /** Converting `t + u` converts `t` and `u` separately when `u` starts with '<'. */
  lemma {:induction false} SplitBeforeLt(t: string, u: string)
    requires u != [] && u[0] == '<'
    ensures MarkToStar(t + u) == MarkToStar(t) + MarkToStar(u)
    decreases |t|
  {
    var x := t + u;
    if t == [] {
      assert x == u;
    } else {
      TagStartsBeforeLt(OpenTag, t, u);
      TagStartsBeforeLt(CloseTag, t, u);
      if OpenTag <= t {
        assert x[|OpenTag|..] == t[|OpenTag|..] + u;
        SplitBeforeLt(t[|OpenTag|..], u);
      } else if CloseTag <= t {
        assert x[|CloseTag|..] == t[|CloseTag|..] + u;
        SplitBeforeLt(t[|CloseTag|..], u);
      } else {
        assert x[0] == t[0] && x[1..] == t[1..] + u;
        SplitBeforeLt(t[1..], u);
      }
    }
  }

  /** Every opening tag, wherever it stands, becomes one `*`; the text on each side is converted on its own. */
  lemma EveryOpenTag(a: string, b: string)
    ensures MarkToStar(a + OpenTag + b) == MarkToStar(a) + Star + MarkToStar(b)
  {
    assert a + OpenTag + b == a + (OpenTag + b);
    SplitBeforeLt(a, OpenTag + b);
    OpenTagBecomesStar(b);
  }

  /** Every closing tag, wherever it stands, becomes one `*`; the text on each side is converted on its own. */
  lemma EveryCloseTag(a: string, b: string)
    ensures MarkToStar(a + CloseTag + b) == MarkToStar(a) + Star + MarkToStar(b)
  {
    assert a + CloseTag + b == a + (CloseTag + b);
    SplitBeforeLt(a, CloseTag + b);
    CloseTagBecomesStar(b);
  }

  /** Text without '<' holds no tag, so it passes through unchanged. */
  lemma {:induction false} CopyNoLt(u: string, t: string)
    requires NoChar(u, '<')
    ensures MarkToStar(u + t) == u + MarkToStar(t)
    decreases |u|
  {
    if u == [] {
      assert u + t == t;
    } else {
      var x := u + t;
      assert x[0] == u[0];
      PrefixByHead(OpenTag, x);
      PrefixByHead(CloseTag, x);
      assert x[1..] == u[1..] + t;
      assert NoChar(u[1..], '<') by {
        forall i | 0 <= i < |u[1..]| ensures u[1..][i] != '<' { assert u[1..][i] == u[i + 1]; }
      }
      CopyNoLt(u[1..], t);
      assert [u[0]] + (u[1..] + MarkToStar(t)) == u + MarkToStar(t);
    }
  }
}
