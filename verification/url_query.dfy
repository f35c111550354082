/** The part of the WHATWG URL standard the deep-link handlers touch: a parsed URL's
    query and fragment, and the `application/x-www-form-urlencoded` name/value list
    that `URLSearchParams` reads from them. Percent-decoding and `+` as space are not
    modelled (both sides of every round trip below would apply them alike). */
module UrlQuery {
  import opened Gateway
  import Text

  /** A URL after `new URL(...)` succeeded: the query without its `?` and the
      fragment without its `#`. */
  datatype Url = Url(query: string, fragment: string)

  /** One name/value pair of a query string. */
  datatype Param = Param(name: string, value: string)

  /** One `&`-separated piece: the name runs up to the first `=`; without `=`
      the whole piece is the name and the value is empty. */
  function ParsePiece(piece: string): (p: Param)
    ensures '=' !in piece ==> p == Param(piece, "")
    ensures '=' in piece ==> piece == p.name + "=" + p.value && '=' !in p.name
  {
    match Text.Cut(piece, '=')
    case (n, NotFound) => Param(n, "")
    case (n, After(v)) => Param(n, v)
  }

  function ParsePieces(pieces: seq<string>): seq<Param>
    decreases |pieces|
  {
    if |pieces| == 0 then []
    else (if pieces[0] == "" then [] else [ParsePiece(pieces[0])]) + ParsePieces(pieces[1..])
  }

  /** The list of a query string without its `?` (`url.searchParams`): split at
      `&`, drop empty pieces, parse each piece. */
  function Parse(s: string): seq<Param> {
    ParsePieces(Text.Split(s, '&'))
  }

  /** `new URLSearchParams(s)` on a string: one leading `?` is dropped first. */
  function ParseInit(s: string): seq<Param> {
    if |s| > 0 && s[0] == '?' then Parse(s[1..]) else Parse(s)
  }

  function Piece(p: Param): string {
    p.name + "=" + p.value
  }

  /** `params.toString()`: `name=value` pieces joined with `&`. */
  function Serialize(ps: seq<Param>): string {
    Text.Join(seq(|ps|, i requires 0 <= i < |ps| => Piece(ps[i])), '&')
  }

  /** `params.get(name)`: the value of the first pair with that name, or `null`. */
  function Get(ps: seq<Param>, name: string): (r: Option<string>)
    ensures r.None? <==> forall i :: 0 <= i < |ps| ==> ps[i].name != name
    ensures r.Some? ==> exists i :: 0 <= i < |ps| && ps[i] == Param(name, r.value)
                                   && forall j :: 0 <= j < i ==> ps[j].name != name
    decreases |ps|
  {
    if |ps| == 0 then None
    else if ps[0].name == name then Some(ps[0].value)
    else
      var r := Get(ps[1..], name);
      if r.Some? then
        var i :| 0 <= i < |ps[1..]| && ps[1..][i] == Param(name, r.value)
                 && forall j :: 0 <= j < i ==> ps[1..][j].name != name;
        assert ps[i + 1] == Param(name, r.value);
        r
      else r
  }

  /** The three parameters an email link carries. */
  datatype LinkParams = LinkParams(accessToken: Option<string>, refreshToken: Option<string>, linkType: Option<string>)

  /** `searchParams.get` of `access_token`, `refresh_token` and `type`. */
  function ReadLink(ps: seq<Param>): LinkParams {
    LinkParams(Get(ps, "access_token"), Get(ps, "refresh_token"), Get(ps, "type"))
  }

  /** The lists `Parse` can produce: names free of `&` and `=`, values free of `&`. */
  predicate WellFormed(ps: seq<Param>) {
    forall i :: 0 <= i < |ps| ==> '&' !in ps[i].name && '=' !in ps[i].name && '&' !in ps[i].value
  }

  lemma {:induction false} ParsePiecesWellFormed(pieces: seq<string>)
    requires forall i :: 0 <= i < |pieces| ==> '&' !in pieces[i]
    ensures WellFormed(ParsePieces(pieces))
    decreases |pieces|
  {
    if |pieces| > 0 {
      ParsePiecesWellFormed(pieces[1..]);
      var p := ParsePiece(pieces[0]);
      if '=' in pieces[0] {
        assert pieces[0] == p.name + "=" + p.value;
        assert '&' !in p.name && '&' !in p.value by {
          forall k | 0 <= k < |p.name| ensures p.name[k] != '&' {
            assert p.name[k] == pieces[0][k];
          }
          forall k | 0 <= k < |p.value| ensures p.value[k] != '&' {
            assert p.value[k] == pieces[0][|p.name| + 1 + k];
          }
        }
      }
    }
  }

  /** Every parsed list is well formed. */
  lemma ParseWellFormed(s: string)
    ensures WellFormed(Parse(s))
  {
    ParsePiecesWellFormed(Text.Split(s, '&'));
  }

  lemma {:induction false} ParsePiecesOfSerialized(ps: seq<Param>)
    requires WellFormed(ps)
    ensures ParsePieces(seq(|ps|, i requires 0 <= i < |ps| => Piece(ps[i]))) == ps
    decreases |ps|
  {
    var pieces := seq(|ps|, i requires 0 <= i < |ps| => Piece(ps[i]));
    if |ps| > 0 {
      assert pieces[1..] == seq(|ps[1..]|, i requires 0 <= i < |ps[1..]| => Piece(ps[1..][i]));
      ParsePiecesOfSerialized(ps[1..]);
      Text.CutJoined(ps[0].name, '=', ps[0].value);
      assert pieces[0] != "" by { assert |pieces[0]| > |ps[0].name|; }
      assert [ps[0]] + ps[1..] == ps;
    }
  }

  /** Parsing a serialized well-formed list gives the list back. */
  lemma SerializeRoundTrip(ps: seq<Param>)
    requires WellFormed(ps)
    ensures Parse(Serialize(ps)) == ps
  {
    var pieces := seq(|ps|, i requires 0 <= i < |ps| => Piece(ps[i]));
    if |ps| == 0 {
      assert Text.Split("", '&') == [""];
    } else {
      forall i | 0 <= i < |pieces| ensures '&' !in pieces[i] {
        var p := ps[i];
        assert pieces[i] == p.name + "=" + p.value;
      }
      Text.SplitJoin(pieces, '&');
    }
    ParsePiecesOfSerialized(ps);
  }

  /** Re-serializing and re-parsing a parsed query changes nothing. */
  lemma ReparseIsIdentity(s: string)
    ensures Parse(Serialize(Parse(s))) == Parse(s)
  {
    ParseWellFormed(s);
    SerializeRoundTrip(Parse(s));
  }
}
