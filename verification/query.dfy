/** `Request.AddQueryParameters`: appending `key=value&` pairs to a URL, with
    only the values passed through the URL escape function. The escape
    function is the engine's and is a parameter here. A small query parser
    is the partner that recovers the pairs the builder wrote. */
module Query {
  import opened Common

  /** One query parameter as the source holds it: a `(key, value)` tuple. */
  type Param = (string, string)

  /** The text one parameter contributes: key verbatim, escaped value, and a
      trailing separator. */
  function Segment(p: Param, escape: string -> string): string
  {
    p.0 + "=" + escape(p.1) + "&"
  }

  /** The segments of all parameters, in input order. */
  function Segments(ps: seq<Param>, escape: string -> string): (r: string)
    ensures |ps| > 0 ==> |r| > 0 && r[|r| - 1] == '&'
    ensures |ps| == 0 <==> r == ""
  {
    if |ps| == 0 then ""
    else Segment(ps[0], escape) + Segments(ps[1..], escape)
  }

  /** `AddQueryParameters(base, ps)`; `ps == None` is a null array. */
  function AddQueryParameters(base: string, ps: Option<seq<Param>>, escape: string -> string): (url: string)
    ensures ps.None? || |ps.value| == 0 ==> url == base
    ensures ps.Some? && |ps.value| > 0 ==>
      && |url| > |base| + 1
      && url[..|base|] == base
      && url[|base|] == '?'
      && url[|url| - 1] == '&'
      && url[|base| + 1..] == Segments(ps.value, escape)
  {
    if ps.None? || |ps.value| == 0 then base
    else base + "?" + Segments(ps.value, escape)
  }

  /** The `StringBuilder` loop of the source, appending piece by piece. */
  method BuildUrl(base: string, ps: Option<seq<Param>>, escape: string -> string) returns (url: string)
    ensures url == AddQueryParameters(base, ps, escape)
    ensures ps.Some? && |ps.value| > 0 ==> url[|url| - 1] == '&'
  {
    if ps.None? || |ps.value| == 0 {
      return base;
    }
    var params := ps.value;
    url := base + "?";
    var i := 0;
    while i < |params|
      invariant 0 <= i <= |params|
      invariant url + Segments(params[i..], escape) == base + "?" + Segments(params, escape)
    {
      assert params[i..][1..] == params[i + 1..];
      url := url + params[i].0 + "=" + escape(params[i].1) + "&";
      i := i + 1;
    }
    assert params[i..] == [];
  }

  /** The parameters as they appear on the wire: keys untouched, values escaped. */
  function Escaped(ps: seq<Param>, escape: string -> string): seq<Param>
  {
    seq(|ps|, i requires 0 <= i < |ps| => (ps[i].0, escape(ps[i].1)))
  }

  /** Splits `s` at the first `c`: the text before it and the text after it
      (everything and nothing when `c` does not occur). */
  function SplitAt(s: string, c: char): (r: (string, string))
    ensures c !in r.0
    ensures c in s ==> s == r.0 + [c] + r.1
    ensures c !in s ==> r == (s, [])
    ensures |r.1| <= |s| && (|s| > 0 ==> |r.1| < |s|)
  {
    if |s| == 0 then ([], [])
    else if s[0] == c then ([], s[1..])
    else
      var t := SplitAt(s[1..], c);
      assert s == [s[0]] + s[1..];
      ([s[0]] + t.0, t.1)
  }

  /** Reads `key=value&` pairs back out of a query string. */
  function ParseQuery(q: string): seq<Param>
    decreases |q|
  {
    if |q| == 0 then []
    else
      var (k, rest) := SplitAt(q, '=');
      var (v, rest') := SplitAt(rest, '&');
      [(k, v)] + ParseQuery(rest')
  }

  /** Splitting right at the first occurrence of the separator. */
  lemma {:induction false} SplitAtFirst(a: string, c: char, b: string)
    requires c !in a
    ensures SplitAt(a + [c] + b, c) == (a, b)
  {
    if |a| == 0 {
      assert a + [c] + b == [c] + b;
    } else {
      assert (a + [c] + b)[1..] == a[1..] + [c] + b;
      SplitAtFirst(a[1..], c, b);
      assert [a[0]] + a[1..] == a;
    }
  }

  /** No key holds `=` and no escaped value holds `&`. */
  predicate Separable(ps: seq<Param>, escape: string -> string)
  {
    forall i :: 0 <= i < |ps| ==> '=' !in ps[i].0 && '&' !in escape(ps[i].1)
  }

  /** The segments parse back into the pairs they were built from. */
  lemma {:induction false} ParseSegments(ps: seq<Param>, escape: string -> string)
    requires Separable(ps, escape)
    ensures ParseQuery(Segments(ps, escape)) == Escaped(ps, escape)
  {
    if |ps| > 0 {
      var k, e, rest := ps[0].0, escape(ps[0].1), Segments(ps[1..], escape);
      assert Segments(ps, escape) == k + ['='] + (e + ['&'] + rest);
      SplitAtFirst(k, '=', e + ['&'] + rest);
      SplitAtFirst(e, '&', rest);
      ParseSegments(ps[1..], escape);
      assert Escaped(ps, escape) == [(k, e)] + Escaped(ps[1..], escape);
    }
  }

  /** The pairs a possibly-null parameter array holds. */
  function Pairs(ps: Option<seq<Param>>): seq<Param>
  {
    if ps.Some? then ps.value else []
  }

  /** Round trip of a whole URL: when the base holds no `?` and the pairs are
      separable, the part before `?` is the base and the query parses back to
      the keys and escaped values, in input order (none for a null or empty
      array). */
  lemma QueryRoundTrip(base: string, ps: Option<seq<Param>>, escape: string -> string)
    requires '?' !in base
    requires Separable(Pairs(ps), escape)
    ensures SplitAt(AddQueryParameters(base, ps, escape), '?').0 == base
    ensures ParseQuery(SplitAt(AddQueryParameters(base, ps, escape), '?').1) == Escaped(Pairs(ps), escape)
  {
    if ps.Some? && |ps.value| > 0 {
      SplitAtFirst(base, '?', Segments(ps.value, escape));
      ParseSegments(ps.value, escape);
    }
  }
}
