/**
 * The string operations the proxy's decisions are built from: the prefix and
 * suffix tests of Go's `strings` package, `strings.Split` and `strings.Join`
 * with the one-space separator, and `fmt.Sprintf` restricted to templates
 * whose only verb is a single `%s`.
 */
module Text {

  /** `strings.HasPrefix(s, prefix)`. */
  predicate HasPrefix(s: string, prefix: string) {
    |prefix| <= |s| && s[..|prefix|] == prefix
  }

  /** `strings.HasSuffix(s, suffix)`. */
  predicate HasSuffix(s: string, suffix: string) {
    |suffix| <= |s| && s[|s| - |suffix|..] == suffix
  }

  /** Position of the first occurrence of `c` in `s`. */
  function IndexOf(s: string, c: char): (i: nat)
    requires c in s
    ensures i < |s| && s[i] == c && c !in s[..i]
  {
    if s[0] == c then 0
    else
      var j := IndexOf(s[1..], c);
      assert s[..j + 1] == [s[0]] + s[1..][..j];
      j + 1
  }

  /** The first `c` of `a + x` is the head of `x` when `a` holds no `c`. */
  lemma {:induction false} IndexOfAfter(a: string, x: string, c: char)
    requires c !in a && x != [] && x[0] == c
    ensures c in a + x && IndexOf(a + x, c) == |a|
    decreases |a|
  {
    if a == [] {
      assert a + x == x;
    } else {
      assert (a + x)[1..] == a[1..] + x;
      IndexOfAfter(a[1..], x, c);
    }
  }

  /** `strings.Join(words, " ")`. */
  function Join(words: seq<string>): string
  {
    if words == [] then ""
    else if |words| == 1 then words[0]
    else words[0] + " " + Join(words[1..])
  }

  /**
   * `strings.Split(s, " ")`: the pieces between single spaces. There is
   * always at least one piece (the empty string splits into `[""]`), no piece
   * holds a space, and joining the pieces gives `s` back.
   */
  function Split(s: string): (words: seq<string>)
    ensures |words| >= 1
    ensures forall w <- words :: ' ' !in w
    ensures Join(words) == s
    ensures |words| == 1 <==> ' ' !in s
    decreases |s|
  {
    if ' ' !in s then [s]
    else
      var i := IndexOf(s, ' ');
      var rest := Split(s[i + 1..]);
      assert s == s[..i] + " " + s[i + 1..];
      assert ([s[..i]] + rest)[1..] == rest;
      [s[..i]] + rest
  }

  /** Splitting a first space-free word off a string. */
  lemma SplitFirstWord(word: string, rest: string)
    requires ' ' !in word
    ensures Split(word + " " + rest) == [word] + Split(rest)
  {
    var s := word + " " + rest;
    assert s[|word|] == ' ';
    IndexOfAfter(word, " " + rest, ' ');
    assert s == word + (" " + rest);
    assert s[..|word|] == word;
    assert s[|word| + 1..] == rest;
  }

  /** The converse round trip: splitting joined space-free words gives them back. */
  lemma {:induction false} SplitJoin(words: seq<string>)
    requires |words| >= 1
    requires forall w <- words :: ' ' !in w
    ensures Split(Join(words)) == words
  {
    if |words| > 1 {
      SplitJoin(words[1..]);
      SplitFirstWord(words[0], Join(words[1..]));
    }
  }

  /**
   * A template in which `%` occurs exactly once, as the verb `%s`; for these
   * `fmt.Sprintf(t, arg)` only substitutes `arg` for the verb.
   */
  predicate SingleVerb(t: string) {
    '%' in t && var i := IndexOf(t, '%'); i + 1 < |t| && t[i + 1] == 's' && '%' !in t[i + 2..]
  }

  /** `fmt.Sprintf(t, arg)` on a single-verb template. */
  function Format(t: string, arg: string): string
    requires SingleVerb(t)
  {
    var i := IndexOf(t, '%');
    t[..i] + arg + t[i + 2..]
  }

  /**
   * Every template with one `%s` and no other `%` is single-verb, and
   * formatting it splices the argument in place of the verb.
   */
  lemma FormatSplices(pre: string, post: string, arg: string)
    requires '%' !in pre && '%' !in post
    ensures SingleVerb(pre + "%s" + post)
    ensures Format(pre + "%s" + post, arg) == pre + arg + post
  {
    var t := pre + "%s" + post;
    assert t == pre + ("%s" + post);
    IndexOfAfter(pre, "%s" + post, '%');
    assert t[..|pre|] == pre;
    assert t[|pre| + 2..] == post;
  }
}
