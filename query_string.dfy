/** `name=value` pairs joined with `&`, as the OAuth client writes them into a URI
    query and as the token endpoints write them into a response body. Reading a
    piece follows the client's own rule: the value is the text after the FIRST `=`
    (`segment.Substring(segment.IndexOf('=') + 1)`), so a piece without `=` is
    read whole and a value may itself contain `=`. */
module QueryString {
  import opened Text

  datatype Parameter = Parameter(name: String, value: String)

  /** One `name=value` piece. */
  function Render(p: Parameter): String
  {
    p.name + "=" + p.value
  }

  /** The rendered pieces, one per pair. */
  function Pieces(ps: seq<Parameter>): seq<String>
  {
    seq(|ps|, i requires 0 <= i < |ps| => Render(ps[i]))
  }

  lemma PiecesAt(ps: seq<Parameter>)
    ensures |Pieces(ps)| == |ps|
    ensures forall i :: 0 <= i < |ps| ==> Pieces(ps)[i] == Render(ps[i])
  {
  }

  /** The pairs in order, separated by single `&`. */
  function FormatQuery(ps: seq<Parameter>): String
  {
    Join(Pieces(ps), '&')
  }

  /** `segment.Substring(segment.IndexOf('=') + 1)`: the text after the first `=`,
      or the whole segment when it holds no `=`. */
  function ValueOf(segment: String): (v: String)
    ensures |v| <= |segment| && v == segment[|segment| - |v|..]
    ensures '=' !in segment ==> v == segment
    ensures '=' in segment ==>
      |v| < |segment| && segment[|segment| - |v| - 1] == '='
      && '=' !in segment[..|segment| - |v| - 1]
  {
    segment[IndexOf(segment, '=') + 1..]
  }

  /** The text before the first `=`, or the whole segment when it holds no `=`. */
  function NameOf(segment: String): (n: String)
    ensures '=' !in n
    ensures n <= segment
    ensures '=' in segment ==> n + "=" + ValueOf(segment) == segment
  {
    var i := IndexOf(segment, '=');
    if i == -1 then segment
    else
      assert segment == segment[..i] + [segment[i]] + segment[i + 1..];
      segment[..i]
  }

  function ParsePiece(segment: String): Parameter
  {
    Parameter(NameOf(segment), ValueOf(segment))
  }

  /** Every `&`-piece of the query read as a pair by the first-`=` rule. */
  function ParseQuery(q: String): (ps: seq<Parameter>)
    ensures |ps| == |Split(q, '&')| && |ps| >= 1
    ensures forall i :: 0 <= i < |ps| ==> ps[i] == ParsePiece(Split(q, '&')[i])
  {
    var pieces := Split(q, '&');
    seq(|pieces|, i requires 0 <= i < |pieces| => ParsePiece(pieces[i]))
  }

  /** The names of the pairs, in order. */
  function Names(ps: seq<Parameter>): seq<String>
  {
    seq(|ps|, i requires 0 <= i < |ps| => ps[i].name)
  }

  lemma NamesAt(ps: seq<Parameter>)
    ensures |Names(ps)| == |ps|
    ensures forall i :: 0 <= i < |ps| ==> Names(ps)[i] == ps[i].name
  {
  }

  /** A name without `=` is cut off exactly, and everything after it, further `=`
      included, is the value. */
  lemma ValueAfterName(name: String, value: String)
    requires '=' !in name
    ensures ValueOf(name + "=" + value) == value
    ensures NameOf(name + "=" + value) == name
  {
    var s := name + "=" + value;
    assert s[|name|] == '=';
    assert s[..|name|] == name;
    assert '=' in s;
    var v := ValueOf(s);
    var k := |s| - |v| - 1;
    assert s[k] == '=';
    assert s[|name| + 1..] == value;
  }

  /** Reading back a rendered pair whose name holds no `=` gives the pair. */
  lemma ParseRender(p: Parameter)
    requires '=' !in p.name
    ensures ParsePiece(Render(p)) == p
  {
    ValueAfterName(p.name, p.value);
  }

  /** A name holding neither `=` nor `&`, so that its pair is cut at the right places. */
  predicate PlainName(name: String)
  {
    '=' !in name && '&' !in name
  }

  ghost predicate WellFormed(ps: seq<Parameter>)
  {
    forall i :: 0 <= i < |ps| ==> PlainName(ps[i].name) && '&' !in ps[i].value
  }

  lemma WellFormedSnoc(ps: seq<Parameter>, p: Parameter) returns (qs: seq<Parameter>)
    requires WellFormed(ps)
    requires PlainName(p.name) && '&' !in p.value
    ensures qs == ps + [p] && WellFormed(qs)
  {
    qs := ps + [p];
  }

  /** Splitting a formatted query on `&` gives back its `name=value` pieces. */
  lemma SplitFormatQuery(ps: seq<Parameter>)
    requires |ps| >= 1 && WellFormed(ps)
    ensures Split(FormatQuery(ps), '&') == Pieces(ps)
  {
    var pieces := Pieces(ps);
    forall i | 0 <= i < |pieces| ensures '&' !in pieces[i] {
      assert pieces[i] == ps[i].name + "=" + ps[i].value;
    }
    SplitJoin(pieces, '&');
  }

  /** Parsing a formatted query gives back the same pairs in the same order. */
  lemma QueryRoundTrip(ps: seq<Parameter>)
    requires |ps| >= 1 && WellFormed(ps)
    ensures ParseQuery(FormatQuery(ps)) == ps
  {
    SplitFormatQuery(ps);
    PiecesAt(ps);
    var parsed := ParseQuery(FormatQuery(ps));
    forall i | 0 <= i < |ps| ensures parsed[i] == ps[i] {
      ParseRender(ps[i]);
    }
  }


  lemma FormatQuerySingle(p: Parameter)
    ensures FormatQuery([p]) == p.name + "=" + p.value
  {
    assert Pieces([p]) == [Render(p)];
  }

  /** Appending one pair extends the query by `&` and that pair. */
  lemma FormatQuerySnoc(ps: seq<Parameter>, p: Parameter)
    requires |ps| >= 1
    ensures FormatQuery(ps + [p]) == FormatQuery(ps) + "&" + Render(p)
  {
    assert Pieces(ps + [p]) == Pieces(ps) + [Render(p)];
    JoinSnoc(Pieces(ps), Render(p), '&');
  }
}
