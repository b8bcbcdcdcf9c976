/**
 * The link a tile opens: an `ext+container:` URL naming the Firefox container
 * and the environment's base URL, both percent-encoded, and the reading of
 * such a link back into its two fields.
 */
module Tiles {
  import opened Wrappers
  import opened Uri
  import opened Boxes

  const HrefStart: string := "ext+container:name="
  const UrlField: string := "&url="

  /** `${state.envs[env]}`: the URL, or the text "undefined" when the map lacks the key. */
  function EnvUrlText(envs: map<Env, string>, e: Env): string {
    if e in envs then envs[e] else "undefined"
  }

  /** The `href` `createTile` gives a box's link. */
  function TileHref(b: Box, envs: map<Env, string>): string {
    HrefStart + EncodeURIComponent(b.containerName) + UrlField + EncodeURIComponent(EnvUrlText(envs, b.env))
  }

  /** The text before the first "&", and the rest from that "&" on. */
  function SplitAtAmp(s: string): (r: (string, string))
    ensures r.0 + r.1 == s
    ensures '&' !in r.0
    ensures r.1 == [] || r.1[0] == '&'
  {
    if s == [] then ([], [])
    else if s[0] == '&' then ([], s)
    else
      var r' := SplitAtAmp(s[1..]);
      assert s == [s[0]] + s[1..];
      assert '&' !in [s[0]] + r'.0;
      ([s[0]] + r'.0, r'.1)
  }

  /** The container name and URL a tile link carries, if it has the tile shape and both fields decode. */
  function ParseTileHref(h: string): Option<(string, string)> {
    if |h| < |HrefStart| || h[..|HrefStart|] != HrefStart then None
    else
      var (name, tail) := SplitAtAmp(h[|HrefStart|..]);
      if |tail| < |UrlField| || tail[..|UrlField|] != UrlField then None
      else
        match (DecodeURIComponent(name), DecodeURIComponent(tail[|UrlField|..]))
        case (Some(n), Some(u)) => Some((n, u))
        case _ => None
  }

  /** Splitting at the first "&" of a text without one followed by a text starting with one. */
  lemma {:induction false} SplitAtAmpOf(x: string, y: string)
    requires '&' !in x
    requires y != [] && y[0] == '&'
    ensures SplitAtAmp(x + y) == (x, y)
  {
    if x == [] {
      assert x + y == y;
    } else {
      assert (x + y)[0] == x[0] && (x + y)[1..] == x[1..] + y;
      SplitAtAmpOf(x[1..], y);
      assert [x[0]] + x[1..] == x;
    }
  }

  lemma PrefixParts<T>(a: seq<T>, b: seq<T>)
    ensures |a + b| >= |a| && (a + b)[..|a|] == a && (a + b)[|a|..] == b
  {
  }

  /** An encoded text has no "&": every character is unescaped or "%". */
  lemma EncodedHasNoAmp(s: string)
    ensures '&' !in EncodeURIComponent(s)
  {
    var e := EncodeURIComponent(s);
    forall k | 0 <= k < |e| ensures e[k] != '&' {
      assert IsUnreserved(e[k]) || e[k] == '%';
    }
  }

  /** A tile link reads back as exactly the box's container name and its environment's URL text. */
  lemma TileHrefRoundTrip(b: Box, envs: map<Env, string>)
    ensures ParseTileHref(TileHref(b, envs)) == Some((b.containerName, EnvUrlText(envs, b.env)))
  {
    var n, u := EncodeURIComponent(b.containerName), EncodeURIComponent(EnvUrlText(envs, b.env));
    var body := n + (UrlField + u);
    assert TileHref(b, envs) == HrefStart + body;
    PrefixParts(HrefStart, body);
    EncodedHasNoAmp(b.containerName);
    SplitAtAmpOf(n, UrlField + u);
    PrefixParts(UrlField, u);
    DecodeEncode(b.containerName);
    DecodeEncode(EnvUrlText(envs, b.env));
  }
}
