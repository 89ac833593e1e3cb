/**
 * A URL's query parameters as `URLSearchParams` keeps them: an ordered list
 * of name/value pairs in which a name may repeat.
 */
module QueryString {
  import opened Text

  type Params = seq<(string, string)>

  /** `params.get(name)`: the value of the first pair with that name. */
  function Get(ps: Params, name: string): Option<string>
    decreases |ps|
  {
    if ps == [] then None
    else if ps[0].0 == name then Some(ps[0].1)
    else Get(ps[1..], name)
  }

  /** `get` finds nothing exactly when no pair has the name, and otherwise
      the value of the first pair that has it. */
  lemma {:induction false} GetFirst(ps: Params, name: string)
    ensures Get(ps, name).None? <==> forall i :: 0 <= i < |ps| ==> ps[i].0 != name
    ensures Get(ps, name).Some? ==>
      exists i :: 0 <= i < |ps| && ps[i] == (name, Get(ps, name).value) && forall j :: 0 <= j < i ==> ps[j].0 != name
    decreases |ps|
  {
    if ps != [] && ps[0].0 != name {
      GetFirst(ps[1..], name);
      assert forall j :: 1 <= j < |ps| ==> ps[j] == ps[1..][j - 1];
      if Get(ps, name).Some? {
        var i :| 0 <= i < |ps[1..]| && ps[1..][i] == (name, Get(ps, name).value) && forall j :: 0 <= j < i ==> ps[1..][j].0 != name;
        assert ps[i + 1] == (name, Get(ps, name).value);
      }
    }
    if ps != [] && ps[0].0 == name {
      assert ps[0] == (name, Get(ps, name).value);
    }
  }

  /** `params.get(name) || fallback`: an absent or empty value gives the fallback. */
  function GetOr(ps: Params, name: string, fallback: string): (v: string)
    ensures Truthy(Get(ps, name)) ==> v == Get(ps, name).value
    ensures !Truthy(Get(ps, name)) ==> v == fallback
  {
    var r := Get(ps, name);
    if Truthy(r) then r.value else fallback
  }

  /** `params.get(name) === "true"`. */
  predicate IsTrue(ps: Params, name: string) {
    Get(ps, name) == Some("true")
  }

  // ---------------------------------------------------------------------------
  // Reading a query string back

  /** A piece `name=value` cut at its first `=`; a piece without one is a
      name with the empty value. */
  function SplitAtFirst(s: string, c: char): (nv: (string, string))
    ensures c !in nv.0
    ensures c in s ==> s == nv.0 + [c] + nv.1
    ensures c !in s ==> nv == (s, [])
    decreases |s|
  {
    if s == [] then ([], [])
    else if s[0] == c then ([], s[1..])
    else
      var rest := SplitAtFirst(s[1..], c);
      assert s == [s[0]] + s[1..];
      ([s[0]] + rest.0, rest.1)
  }

  /** The pairs of the `&`-separated pieces, skipping empty pieces. */
  function ParsePieces(pieces: seq<string>): Params
    decreases |pieces|
  {
    if pieces == [] then []
    else if pieces[0] == [] then ParsePieces(pieces[1..])
    else [SplitAtFirst(pieces[0], '=')] + ParsePieces(pieces[1..])
  }

  /** `new URLSearchParams(q)` for a query string without percent escapes. */
  function ParseQuery(q: string): Params {
    ParsePieces(Split(q, '&'))
  }

  /** A query of two pairs whose values hold no `&` reads back as those pairs. */
  lemma ParseTwoPairs(n1: string, v1: string, n2: string, v2: string)
    requires n1 != [] && n2 != []
    requires '=' !in n1 && '=' !in n2 && '&' !in n1 + v1 && '&' !in n2 + v2
    ensures ParseQuery(n1 + "=" + v1 + "&" + n2 + "=" + v2) == [(n1, v1), (n2, v2)]
  {
    var p1 := n1 + "=" + v1;
    var p2 := n2 + "=" + v2;
    assert '&' !in p1 && '&' !in p2;
    assert n1 + "=" + v1 + "&" + n2 + "=" + v2 == p1 + ['&'] + p2;
    SplitAtFirstSeparator(p1, p2, '&');
    SplitWithoutSeparator(p2, '&');
    ParseOnePiece(n1, v1);
    ParseOnePiece(n2, v2);
    assert ParsePieces([p2]) == [(n2, v2)];
  }

  /** A query of one pair reads back as that pair. */
  lemma ParseOnePair(n: string, v: string)
    requires n != [] && '=' !in n && '&' !in n + v
    ensures ParseQuery(n + "=" + v) == [(n, v)]
  {
    SplitWithoutSeparator(n + "=" + v, '&');
    ParseOnePiece(n, v);
    assert ParsePieces([n + "=" + v]) == [(n, v)];
  }

  lemma ParseOnePiece(n: string, v: string)
    requires '=' !in n
    ensures n + "=" + v != []
    ensures SplitAtFirst(n + "=" + v, '=') == (n, v)
  {
    var s := n + "=" + v;
    assert s[|n|] == '=';
    var nv := SplitAtFirst(s, '=');
    assert s == nv.0 + "=" + nv.1;
    assert forall i :: 0 <= i < |n| ==> s[i] == n[i] != '=';
    assert forall i :: 0 <= i < |nv.0| ==> s[i] == nv.0[i] != '=';
    assert s[|nv.0|] == '=';
    assert |nv.0| == |n|;
    assert nv.0 == s[..|n|] == n;
    assert nv.1 == s[|n| + 1..] == v;
  }
}
