/**
 * The public path of the compiled assets (config/webpack/configuration.js):
 * the CDN host with its outer slashes removed, made protocol-relative
 * unless it names its scheme, and ending in one slash.
 */
module PublicPath {
  import opened Text

  predicate AllSlashes(s: string) {
    forall i :: 0 <= i < |s| ==> s[i] == '/'
  }

  /** The first `replace`: the leading run of slashes removed. */
  function DropLeading(s: string): (r: string)
    ensures |r| <= |s| && r == s[|s| - |r|..]
    ensures forall k :: 0 <= k < |s| - |r| ==> s[k] == '/'
    ensures r == [] || r[0] != '/'
  {
    if s != [] && s[0] == '/' then DropLeading(s[1..]) else s
  }

  /** The second `replace`: the trailing run of slashes removed. */
  function DropTrailing(s: string): (r: string)
    ensures |r| <= |s| && r == s[..|r|]
    ensures forall k :: |r| <= k < |s| ==> s[k] == '/'
    ensures r == [] || r[|r| - 1] != '/'
  {
    if s != [] && s[|s| - 1] == '/' then DropTrailing(s[..|s| - 1]) else s
  }

  /** The length of the leading run of slashes. */
  function Lead(s: string): nat {
    |s| - |DropLeading(s)|
  }

  /**
   * `removeOuterSlashes`: what lies between the leading and the trailing
   * run of slashes, interior slashes kept.
   */
  function RemoveOuterSlashes(s: string): (r: string)
    ensures r == [] || (r[0] != '/' && r[|r| - 1] != '/')
    ensures Lead(s) + |r| <= |s| && r == s[Lead(s)..Lead(s) + |r|]
    ensures forall k :: 0 <= k < Lead(s) ==> s[k] == '/'
    ensures forall k :: Lead(s) + |r| <= k < |s| ==> s[k] == '/'
  {
    var front := DropLeading(s);
    var r := DropTrailing(front);
    var i := |s| - |front|;
    assert forall k :: i <= k < |s| ==> s[k] == front[k - i];
    r
  }

  /** A string with no slash at either end is kept whole. */
  lemma RemoveOuterSlashesKeeps(s: string)
    requires s == [] || (s[0] != '/' && s[|s| - 1] != '/')
    ensures RemoveOuterSlashes(s) == s
  {
  }

  lemma RemoveOuterSlashesIdempotent(s: string)
    ensures RemoveOuterSlashes(RemoveOuterSlashes(s)) == RemoveOuterSlashes(s)
  {
    RemoveOuterSlashesKeeps(RemoveOuterSlashes(s));
  }

  lemma {:induction false} DropLeadingOf(a: string, x: string)
    requires AllSlashes(a) && (x == [] || x[0] != '/')
    ensures DropLeading(a + x) == x
  {
    if a != [] {
      assert (a + x)[1..] == a[1..] + x;
      DropLeadingOf(a[1..], x);
    } else {
      assert a + x == x;
    }
  }

  lemma {:induction false} DropTrailingOf(x: string, b: string)
    requires AllSlashes(b) && (x == [] || x[|x| - 1] != '/')
    ensures DropTrailing(x + b) == x
  {
    if b != [] {
      assert (x + b)[..|x + b| - 1] == x + b[..|b| - 1];
      DropTrailingOf(x, b[..|b| - 1]);
    } else {
      assert x + b == x;
    }
  }

  /** Slashes around a string without outer slashes are all removed, and only they. */
  lemma RemoveOuterSlashesOfPadded(a: string, s: string, b: string)
    requires AllSlashes(a) && AllSlashes(b)
    requires |s| > 0 && s[0] != '/' && s[|s| - 1] != '/'
    ensures RemoveOuterSlashes(a + s + b) == s
  {
    assert a + s + b == a + (s + b);
    DropLeadingOf(a, s + b);
    DropTrailingOf(s, b);
  }

  /** `/^http/i` */
  predicate NamesScheme(h: string) {
    |h| >= 4 && CaseEqual(h[..4], "http")
  }

  /**
   * `formatPublicPath`: the stripped host, prefixed with "//" when it is
   * not empty and does not start with "http" in any case, then "/".
   * An unset CDN host is the empty string.
   */
  function FormatPublicPath(host: string): (r: string)
    ensures |r| > 0 && r[|r| - 1] == '/'
  {
    PathOf(RemoveOuterSlashes(host))
  }

  /** The public path of a stripped host `h`. */
  function PathOf(h: string): string {
    (if h != "" && !NamesScheme(h) then "//" + h else h) + "/"
  }

  /** A stripped host gives a path ending in one slash, the root exactly for the empty host. */
  lemma PathOfShape(h: string)
    requires h == [] || (h[0] != '/' && h[|h| - 1] != '/')
    ensures var r := PathOf(h); |r| == 1 || r[|r| - 2] != '/'
    ensures PathOf(h) == "/" <==> h == ""
  {
    var f := if h != "" && !NamesScheme(h) then "//" + h else h;
    var r := PathOf(h);
    if h != "" {
      assert f[|f| - 1] == h[|h| - 1];
      assert r[|r| - 2] == f[|f| - 1];
    }
  }

  /**
   * The public path ends in exactly one slash, is the root exactly when
   * the host is made of slashes (or empty), and otherwise is the
   * stripped host, protocol-relative unless it starts with "http".
   */
  lemma FormatPublicPathShape(host: string)
    ensures var r := FormatPublicPath(host);
      |r| == 1 || r[|r| - 2] != '/'
    ensures FormatPublicPath(host) == "/" <==> AllSlashes(host)
    ensures var h := RemoveOuterSlashes(host);
      h != "" && !NamesScheme(h) ==> FormatPublicPath(host) == "//" + h + "/"
    ensures var h := RemoveOuterSlashes(host);
      h != "" && NamesScheme(h) ==> FormatPublicPath(host) == h + "/"
  {
    var h := RemoveOuterSlashes(host);
    assert FormatPublicPath(host) == PathOf(h);
    StrippedEmpty(host);
    PathOfShape(h);
  }

  /** Only a host made of slashes strips to nothing. */
  lemma StrippedEmpty(host: string)
    ensures RemoveOuterSlashes(host) == "" <==> AllSlashes(host)
  {
    var h := RemoveOuterSlashes(host);
    var i := Lead(host);
    if h == "" {
      assert host[..i] == host;
    } else {
      assert host[i] == h[0];
    }
  }

  /** With no CDN host the assets are served from the root. */
  lemma NoHostIsRoot()
    ensures FormatPublicPath("") == "/"
  {
  }
}
