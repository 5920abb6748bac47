/** The string form of a title template: every `%s` placeholder is replaced by
    the page title, scanning left to right without overlap, as the global
    regular-expression replace `template.replace(/%s/g, title)` does when the
    title is inserted literally. */
module Template {

  /** True iff a `%s` placeholder starts at index i of s. */
  predicate PlaceholderAt(s: string, i: int)
  {
    0 <= i && i + 1 < |s| && s[i] == '%' && s[i + 1] == 's'
  }

  /** True iff s contains a `%s` placeholder somewhere. */
  ghost predicate HasPlaceholder(s: string)
  {
    exists i :: PlaceholderAt(s, i)
  }

  /** Every non-overlapping `%s` of s, found from the left, replaced by t.
      The inserted text t is never scanned again. */
  function ReplaceAll(s: string, t: string): string
    decreases |s|
  {
    if |s| < 2 then s
    else if s[0] == '%' && s[1] == 's' then t + ReplaceAll(s[2..], t)
    else [s[0]] + ReplaceAll(s[1..], t)
  }

  /** The number of non-overlapping `%s` placeholders of s, counted from the left. */
  function Occurrences(s: string): nat
    decreases |s|
  {
    if |s| < 2 then 0
    else if s[0] == '%' && s[1] == 's' then 1 + Occurrences(s[2..])
    else Occurrences(s[1..])
  }

  /** The pieces of s between its placeholders, as `s.split("%s")` gives them. */
  function Split(s: string): (pieces: seq<string>)
    ensures |pieces| == Occurrences(s) + 1
    decreases |s|
  {
    if |s| < 2 then [s]
    else if s[0] == '%' && s[1] == 's' then [""] + Split(s[2..])
    else
      var rest := Split(s[1..]);
      [[s[0]] + rest[0]] + rest[1..]
  }

  /** The pieces glued together with sep between neighbours, as `pieces.join(sep)`. */
  function Join(pieces: seq<string>, sep: string): string
    requires |pieces| >= 1
    decreases |pieces|
  {
    if |pieces| == 1 then pieces[0] else pieces[0] + sep + Join(pieces[1..], sep)
  }

  lemma JoinConsHead(c: char, pieces: seq<string>, sep: string)
    requires |pieces| >= 1
    ensures Join([[c] + pieces[0]] + pieces[1..], sep) == [c] + Join(pieces, sep)
  {
  }

  /** The length of the derived title: each placeholder (two characters) is
      exchanged for the whole of t. */
  lemma {:induction false} ReplaceAllLength(s: string, t: string)
    ensures |ReplaceAll(s, t)| == |s| + Occurrences(s) * (|t| - 2)
    decreases |s|
  {
    if |s| < 2 {
    } else if s[0] == '%' && s[1] == 's' {
      ReplaceAllLength(s[2..], t);
      var k := Occurrences(s[2..]);
      assert (k + 1) * (|t| - 2) == k * (|t| - 2) + (|t| - 2);
    } else {
      ReplaceAllLength(s[1..], t);
    }
  }

  /** Replacing every placeholder is splitting the template at its placeholders
      and joining the pieces with t, so t is inserted literally. */
  lemma {:induction false} ReplaceAllIsSplitJoin(s: string, t: string)
    ensures ReplaceAll(s, t) == Join(Split(s), t)
    decreases |s|
  {
    if |s| < 2 {
    } else if s[0] == '%' && s[1] == 's' {
      ReplaceAllIsSplitJoin(s[2..], t);
      var rest := Split(s[2..]);
      assert ([""] + rest)[1..] == rest;
    } else {
      ReplaceAllIsSplitJoin(s[1..], t);
      JoinConsHead(s[0], Split(s[1..]), t);
    }
  }

  /** A template without placeholder comes back unchanged, whatever the title. */
  lemma {:induction false} NoPlaceholderUnchanged(s: string, t: string)
    requires !HasPlaceholder(s)
    ensures ReplaceAll(s, t) == s
    ensures Occurrences(s) == 0
    decreases |s|
  {
    if |s| >= 2 {
      assert !PlaceholderAt(s, 0);
      forall i | PlaceholderAt(s[1..], i) ensures PlaceholderAt(s, i + 1) {
      }
      NoPlaceholderUnchanged(s[1..], t);
    }
  }

  /** A template holding a placeholder has at least one counted occurrence;
      with NoPlaceholderUnchanged, the count is zero exactly when no `%s` occurs. */
  lemma {:induction false} PlaceholderCounted(s: string)
    requires HasPlaceholder(s)
    ensures Occurrences(s) >= 1
    decreases |s|
  {
    var i :| PlaceholderAt(s, i);
    if s[0] == '%' && s[1] == 's' {
    } else {
      assert i != 0;
      assert PlaceholderAt(s[1..], i - 1);
      PlaceholderCounted(s[1..]);
    }
  }

  /** Scanning resumes after the first placeholder: with a placeholder-free
      prefix a, the first `%s` after a is replaced by t and the rest is
      processed on its own, so nothing of t is ever looked at again. */
  lemma {:induction false} FirstPlaceholderReplacedLiterally(a: string, b: string, t: string)
    requires !HasPlaceholder(a)
    ensures ReplaceAll(a + "%s" + b, t) == a + t + ReplaceAll(b, t)
    decreases |a|
  {
    var s := a + "%s" + b;
    if |a| == 0 {
      assert s == "%s" + b && s[2..] == b;
    } else {
      assert !PlaceholderAt(a, 0);
      forall i | PlaceholderAt(a[1..], i) ensures PlaceholderAt(a, i + 1) {
      }
      assert s[0] == a[0] && s[1] == (if |a| == 1 then '%' else a[1]);
      assert s[1..] == a[1..] + "%s" + b;
      FirstPlaceholderReplacedLiterally(a[1..], b, t);
      calc {
        ReplaceAll(s, t);
        [s[0]] + ReplaceAll(s[1..], t);
        [a[0]] + (a[1..] + t + ReplaceAll(b, t));
        { assert a == [a[0]] + a[1..]; }
        a + t + ReplaceAll(b, t);
      }
    }
  }

  /** Replacing every placeholder with the placeholder text itself gives the
      template back: split and join are inverse. */
  lemma {:induction false} ReplaceWithPlaceholderIsIdentity(s: string)
    ensures ReplaceAll(s, "%s") == s
    decreases |s|
  {
    if |s| < 2 {
    } else if s[0] == '%' && s[1] == 's' {
      ReplaceWithPlaceholderIsIdentity(s[2..]);
      assert s == "%s" + s[2..];
    } else {
      ReplaceWithPlaceholderIsIdentity(s[1..]);
      assert s == [s[0]] + s[1..];
    }
  }

  /** A page title under the template "%s - Site". */
  lemma SiteTitleExample()
    ensures ReplaceAll("%s - Site", "Home") == "Home - Site"
  {
  }

  /** A title that itself reads `%s` is inserted, not expanded again. */
  lemma InsertedTextNotRescannedExample()
    ensures ReplaceAll("%s|%s", "%s") == "%s|%s"
  {
  }

  /** In `%%s` the placeholder is the last two characters. */
  lemma LeftmostMatchExample()
    ensures ReplaceAll("%%s", "x") == "%x"
  {
  }
}
