/**
 * The web-bug detector of `webBugHandler`: a list of canonical URLs known to
 * be 1x1 tracking GIFs and a counter of blocked requests. A request for a
 * listed URL is redirected to the proxy's own pixel; any other request is
 * fetched once by the detector, added to the list when the response is a tiny
 * 1x1 GIF, and handed on to the next handler.
 */
module WebBug {
  import opened Text

  /** A GIF logical-screen dimension: 16 bits unsigned. */
  type Dimension = x: int | 0 <= x < 0x1_0000

  /** What `gif.DecodeConfig` gives for the response body. */
  datatype GifConfig = DecodeError | Config(width: Dimension, height: Dimension)

  /**
   * The outbound fetch of the request URI: an error, or a response with its
   * declared `ContentLength` (-1 when unknown), its `Content-Type` header and
   * what decoding its GIF header yields.
   */
  datatype FetchOutcome = FetchError | Fetched(contentLength: int, contentType: string, config: GifConfig)

  /** Where blocked web bugs are redirected. */
  const PixelUrl := "http://pepper/pixel.gif"
  const GifType := "image/gif"
  /** Only responses declared shorter than this are decoded. */
  const SizeThreshold := 100

  /** The blacklist key of a request: `scheme://host` followed by the path, query left out. */
  function CanonicalUrl(scheme: string, host: string, path: string): string {
    scheme + "://" + host + path
  }

  /**
   * The key determines scheme, host and path, for schemes without `:`, hosts
   * without `/` and paths that are empty or start with `/`.
   */
  lemma CanonicalUrlInjective(s1: string, h1: string, p1: string, s2: string, h2: string, p2: string)
    requires ':' !in s1 && ':' !in s2
    requires '/' !in h1 && '/' !in h2
    requires (p1 == [] || p1[0] == '/') && (p2 == [] || p2[0] == '/')
    requires CanonicalUrl(s1, h1, p1) == CanonicalUrl(s2, h2, p2)
    ensures s1 == s2 && h1 == h2 && p1 == p2
  {
    var u := CanonicalUrl(s1, h1, p1);
    assert u == s1 + (":" + "//" + h1 + p1);
    assert u == s2 + (":" + "//" + h2 + p2);
    PrefixBeforeMark(s1, ":" + "//" + h1 + p1, s2, ":" + "//" + h2 + p2, ':');
    var r1, r2 := h1 + p1, h2 + p2;
    assert u == s1 + "://" + r1 && u == s2 + "://" + r2;
    assert u[|s1| + 3..] == r1;
    assert r1 == r2;
    assert r1 == h1 + (if p1 == [] then "" else "/" + p1[1..]);
    assert r2 == h2 + (if p2 == [] then "" else "/" + p2[1..]);
    if p1 == [] {
      EndOfPrefix(h1, h2, p2);
    } else if p2 == [] {
      EndOfPrefix(h2, h1, p1);
    } else {
      PrefixBeforeMark(h1, p1, h2, p2, '/');
    }
  }

  /** When `a + x == b + y`, `c` begins `x` and `y` and occurs in neither `a` nor `b`, then `a == b`. */
  lemma PrefixBeforeMark(a: string, x: string, b: string, y: string, c: char)
    requires a + x == b + y
    requires x != [] && x[0] == c && y != [] && y[0] == c
    requires c !in a && c !in b
    ensures a == b && x == y
  {
    var s := a + x;
    IndexOfAfter(a, x, c);
    IndexOfAfter(b, y, c);
    assert a == s[..|a|] == b;
  }

  /** When the host `h1` alone equals `h2 + p2` with `/` in neither host, the path `p2` is empty. */
  lemma EndOfPrefix(h1: string, h2: string, p2: string)
    requires h1 == h2 + p2 && '/' !in h1 && '/' !in h2
    requires p2 == [] || p2[0] == '/'
    ensures h1 == h2 && p2 == []
  {
    assert p2 == h1[|h2|..];
  }

  /**
   * The response marks a web bug: fetched, declared shorter than the
   * threshold (an unknown length of -1 included), declared `image/gif`, and a
   * GIF header that decodes to width times height equal to one.
   */
  predicate IsWebBug(o: FetchOutcome) {
    && o.Fetched?
    && o.contentLength < SizeThreshold
    && o.contentType == GifType
    && o.config.Config?
    && o.config.width * o.config.height == 1
  }

  /** The product test of the detector accepts exactly the 1x1 images. */
  lemma WebBugIsOnePixel(o: FetchOutcome)
    requires o.Fetched? && o.config.Config?
    ensures o.config.width * o.config.height == 1 <==> o.config.width == 1 && o.config.height == 1
  {
    var w: int, h: int := o.config.width, o.config.height;
    if w * h == 1 {
      assert w >= 1 && h >= 1;
      assert w * h >= w && w * h >= h;
    }
  }

  /** The detector's state: the blacklisted URLs in insertion order and the hit counter. */
  datatype Detector = Detector(blacklist: seq<string>, counter: nat)

  /** What the detector does with a request. */
  datatype Action = RedirectToPixel | Delegate

  datatype Handled = Handled(action: Action, after: Detector)

  /** One request to `webBugHandler`, on values, branch for branch. */
  function Step(d: Detector, url: string, o: FetchOutcome): Handled {
    if url in d.blacklist then Handled(RedirectToPixel, d.(counter := d.counter + 1))
    else if o.FetchError? then Handled(Delegate, d)
    else if o.contentLength < SizeThreshold && o.contentType == GifType then
      match o.config
      case DecodeError => Handled(Delegate, d)
      case Config(width, height) =>
        if width * height == 1 then Handled(Delegate, d.(blacklist := d.blacklist + [url]))
        else Handled(Delegate, d)
    else Handled(Delegate, d)
  }

  /**
   * A listed URL is redirected and counted and nothing else changes; any
   * other URL is delegated, the counter stays, and the list grows by that URL
   * exactly when the response is a web bug.
   */
  lemma StepCharacterized(d: Detector, url: string, o: FetchOutcome)
    ensures var h := Step(d, url, o);
      && (h.action == RedirectToPixel <==> url in d.blacklist)
      && h.after.counter == (if url in d.blacklist then d.counter + 1 else d.counter)
      && h.after.blacklist == (if url !in d.blacklist && IsWebBug(o) then d.blacklist + [url] else d.blacklist)
  {
  }

  predicate NoDuplicates(s: seq<string>) {
    forall i, j :: 0 <= i < j < |s| ==> s[i] != s[j]
  }

  /** The blacklist never holds a URL twice. */
  lemma StepKeepsNoDuplicates(d: Detector, url: string, o: FetchOutcome)
    requires NoDuplicates(d.blacklist)
    ensures NoDuplicates(Step(d, url, o).after.blacklist)
  {
    var b := Step(d, url, o).after.blacklist;
    if b != d.blacklist {
      assert b == d.blacklist + [url] && url !in d.blacklist;
      forall i, j | 0 <= i < j < |b| ensures b[i] != b[j] {
        if j == |d.blacklist| {
          assert b[i] == d.blacklist[i];
        }
      }
    }
  }

  /** One request to the detector: its canonical URL and what fetching it would give. */
  datatype Visit = Visit(url: string, outcome: FetchOutcome)

  datatype Trace = Trace(actions: seq<Action>, final: Detector)

  /** The detector handling `visits` one at a time, in order. */
  function Run(d: Detector, visits: seq<Visit>): (t: Trace)
    ensures |t.actions| == |visits|
    decreases |visits|
  {
    if visits == [] then Trace([], d)
    else
      var h := Step(d, visits[0].url, visits[0].outcome);
      var t := Run(h.after, visits[1..]);
      Trace([h.action] + t.actions, t.final)
  }

  function CountRedirects(actions: seq<Action>): nat {
    if actions == [] then 0
    else (if actions[0] == RedirectToPixel then 1 else 0) + CountRedirects(actions[1..])
  }

  /**
   * Over any run the blacklist only grows at its end, keeps no duplicates,
   * and gains only URLs of visits whose response was a web bug; the counter
   * grows by the number of redirects served.
   */
  lemma {:induction false} RunMonotone(d: Detector, visits: seq<Visit>)
    requires NoDuplicates(d.blacklist)
    ensures var t := Run(d, visits);
      && d.blacklist <= t.final.blacklist
      && NoDuplicates(t.final.blacklist)
      && t.final.counter == d.counter + CountRedirects(t.actions)
      && forall u :: u in t.final.blacklist && u !in d.blacklist ==>
           exists k :: 0 <= k < |visits| && visits[k].url == u && IsWebBug(visits[k].outcome)
    decreases |visits|
  {
    if visits != [] {
      var v := visits[0];
      var h := Step(d, v.url, v.outcome);
      StepCharacterized(d, v.url, v.outcome);
      StepKeepsNoDuplicates(d, v.url, v.outcome);
      RunMonotone(h.after, visits[1..]);
      var t := Run(d, visits);
      var t' := Run(h.after, visits[1..]);
      assert t.actions == [h.action] + t'.actions;
      assert t.actions[1..] == t'.actions;
      forall u | u in t.final.blacklist && u !in d.blacklist
        ensures exists k :: 0 <= k < |visits| && visits[k].url == u && IsWebBug(visits[k].outcome)
      {
        if u in h.after.blacklist {
          assert u == v.url && IsWebBug(v.outcome);
          assert visits[0].url == u;
        } else {
          var k :| 0 <= k < |visits[1..]| && visits[1..][k].url == u && IsWebBug(visits[1..][k].outcome);
          assert visits[k + 1] == visits[1..][k];
        }
      }
    }
  }

  /** Once a URL is blacklisted, every later request for it is redirected, never fetched again. */
  lemma {:induction false} BlacklistedStaysBlocked(d: Detector, visits: seq<Visit>, url: string)
    requires url in d.blacklist
    ensures var t := Run(d, visits);
      url in t.final.blacklist &&
      forall k :: 0 <= k < |visits| && visits[k].url == url ==> t.actions[k] == RedirectToPixel
    decreases |visits|
  {
    if visits != [] {
      var h := Step(d, visits[0].url, visits[0].outcome);
      StepCharacterized(d, visits[0].url, visits[0].outcome);
      BlacklistedStaysBlocked(h.after, visits[1..], url);
      var t := Run(d, visits);
      var t' := Run(h.after, visits[1..]);
      forall k | 0 <= k < |visits| && visits[k].url == url ensures t.actions[k] == RedirectToPixel {
        if k > 0 {
          assert visits[1..][k - 1] == visits[k];
          assert t.actions[k] == t'.actions[k - 1];
        }
      }
    }
  }

  /**
   * A web bug seen for the first time is passed through and recorded; the
   * next request for the same URL is redirected to the pixel and counted.
   */
  lemma FirstPassedThenBlocked(d: Detector, url: string, first: FetchOutcome, second: FetchOutcome)
    requires url !in d.blacklist && IsWebBug(first)
    ensures Run(d, [Visit(url, first), Visit(url, second)])
      == Trace([Delegate, RedirectToPixel], Detector(d.blacklist + [url], d.counter + 1))
  {
    var visits := [Visit(url, first), Visit(url, second)];
    StepCharacterized(d, url, first);
    var d1 := Detector(d.blacklist + [url], d.counter);
    assert Step(d, url, first) == Handled(Delegate, d1);
    StepCharacterized(d1, url, second);
    assert Step(d1, url, second) == Handled(RedirectToPixel, d1.(counter := d.counter + 1));
    assert visits[1..] == [Visit(url, second)];
    assert Run(d1, [Visit(url, second)]) == Trace([RedirectToPixel], d1.(counter := d.counter + 1));
  }

  /**
   * `webBugHandler` with its captured `url_blacklist` slice and the global
   * `webBugCounter`, one request at a time.
   */
  class WebBugHandler {
    var blacklist: seq<string>
    var counter: nat

    ghost predicate Valid()
      reads this
    {
      NoDuplicates(blacklist)
    }

    function State(): Detector
      reads this
    {
      Detector(blacklist, counter)
    }

    constructor ()
      ensures Valid() && State() == Detector([], 0)
    {
      blacklist := [];
      counter := 0;
    }

    /** Handles a request whose canonical URL is `url` and whose fetch would give `o`. */
    method Handle(url: string, o: FetchOutcome) returns (action: Action)
      requires Valid()
      modifies this
      ensures Valid()
      ensures Handled(action, State()) == Step(old(State()), url, o)
    {
      StepKeepsNoDuplicates(State(), url, o);
      for i := 0 to |blacklist|
        invariant url !in blacklist[..i]
      {
        if blacklist[i] == url {
          counter := counter + 1;
          return RedirectToPixel;
        }
      }
      assert blacklist[..|blacklist|] == blacklist;
      if o.FetchError? {
        return Delegate;
      }
      if o.contentLength < SizeThreshold && o.contentType == GifType {
        if o.config.DecodeError? {
          return Delegate;
        }
        if o.config.width * o.config.height == 1 {
          blacklist := blacklist + [url];
        }
      }
      return Delegate;
    }
  }
}
