/** Reading a query parameter out of `location.search` the way `URLSearchParams`
    splits it: one leading `?` dropped, the rest cut at every `&`, empty pieces
    skipped, each piece cut at its first `=` (a piece without `=` has the empty
    value), and `get` answering with the first pair of that name. Percent- and
    `+`-decoding are not part of this model. */
module Query {
  import opened Wrappers

  datatype Param = Param(name: string, value: string)

  /** The position of the first `c` in `s`. */
  function IndexOf(s: string, c: char): (i: nat)
    requires c in s
    ensures i < |s| && s[i] == c && c !in s[..i]
  {
    if s[0] == c then 0 else 1 + IndexOf(s[1..], c)
  }

  /** The first `c` after a `c`-free prefix is right after that prefix. */
  lemma {:induction false} IndexOfAfter(p: string, c: char, q: string)
    requires c !in p
    ensures IndexOf(p + [c] + q, c) == |p|
  {
    if p != [] {
      assert (p + [c] + q)[1..] == p[1..] + [c] + q;
      assert p[0] in p;
      IndexOfAfter(p[1..], c, q);
    }
  }

  /** `parts` glued back together with `sep` between neighbours. */
  function Join(parts: seq<string>, sep: char): string
    requires |parts| >= 1
  {
    if |parts| == 1 then parts[0] else parts[0] + [sep] + Join(parts[1..], sep)
  }

  /** `s` cut at every `sep`. */
  function Split(s: string, sep: char): (parts: seq<string>)
    ensures |parts| >= 1
    ensures forall i :: 0 <= i < |parts| ==> sep !in parts[i]
    ensures Join(parts, sep) == s
    decreases |s|
  {
    if sep !in s then [s]
    else
      var i := IndexOf(s, sep);
      var rest := Split(s[i + 1..], sep);
      assert s == s[..i] + [sep] + s[i + 1..];
      [s[..i]] + rest
  }

  /** Cutting a join of `sep`-free parts gives the parts back. */
  lemma {:induction false} SplitJoin(parts: seq<string>, sep: char)
    requires |parts| >= 1
    requires forall i :: 0 <= i < |parts| ==> sep !in parts[i]
    ensures Split(Join(parts, sep), sep) == parts
  {
    if |parts| > 1 {
      var s := Join(parts, sep);
      var p := parts[0];
      assert s == p + [sep] + Join(parts[1..], sep);
      IndexOfAfter(p, sep, Join(parts[1..], sep));
      assert s[|p|] == sep;
      assert s[..|p|] == p;
      assert s[|p| + 1..] == Join(parts[1..], sep);
      SplitJoin(parts[1..], sep);
      assert Split(s, sep) == [p] + Split(Join(parts[1..], sep), sep);
    }
  }

  /** One `name=value` piece, cut at its first `=`. */
  function ParsePiece(piece: string): (p: Param)
    ensures '=' !in piece ==> p == Param(piece, "")
    ensures '=' in piece ==> '=' !in p.name && piece == p.name + "=" + p.value
    ensures forall c :: c in p.name || c in p.value ==> c in piece
  {
    if '=' in piece then
      var i := IndexOf(piece, '=');
      assert piece == piece[..i] + "=" + piece[i + 1..];
      Param(piece[..i], piece[i + 1..])
    else Param(piece, "")
  }

  /** The pairs of the non-empty pieces, in order: without empty pieces the pairs
      are the pieces' pairs one for one (`ParsePiecesAppend` and its neighbours say
      what empty pieces change). */
  function ParsePieces(pieces: seq<string>): (ps: seq<Param>)
    ensures |ps| <= |pieces|
    ensures "" !in pieces ==> |ps| == |pieces| && forall i :: 0 <= i < |pieces| ==> ps[i] == ParsePiece(pieces[i])
    ensures (forall i :: 0 <= i < |pieces| ==> '&' !in pieces[i]) ==> Writable(ps)
  {
    if pieces == [] then []
    else
      var rest := ParsePieces(pieces[1..]);
      assert forall i :: 1 <= i < |pieces| ==> pieces[i] == pieces[1..][i - 1];
      if pieces[0] == "" then rest
      else
        var p := ParsePiece(pieces[0]);
        assert '=' !in p.name;
        [p] + rest
  }

  /** Reading pieces is compositional: the pairs of two runs of pieces are the pairs
      of the first followed by the pairs of the second. */
  lemma {:induction false} ParsePiecesAppend(a: seq<string>, b: seq<string>)
    ensures ParsePieces(a + b) == ParsePieces(a) + ParsePieces(b)
  {
    if a != [] {
      assert (a + b)[0] == a[0];
      assert (a + b)[1..] == a[1..] + b;
      ParsePiecesAppend(a[1..], b);
      if a[0] != "" {
        assert ParsePieces(a + b) == [ParsePiece(a[0])] + ParsePieces(a[1..] + b);
        assert ParsePieces(a) == [ParsePiece(a[0])] + ParsePieces(a[1..]);
      }
    } else {
      assert a + b == b;
    }
  }

  /** An empty piece yields no pair; any other piece yields exactly its own pair. */
  lemma ParsePiecesOne(piece: string)
    ensures ParsePieces([piece]) == if piece == "" then [] else [ParsePiece(piece)]
  {
    assert [piece][1..] == [];
  }

  /** Every pair comes from a non-empty piece. */
  lemma {:induction false} ParsePiecesSound(pieces: seq<string>, k: nat)
    requires k < |ParsePieces(pieces)|
    ensures exists i :: 0 <= i < |pieces| && pieces[i] != "" && ParsePieces(pieces)[k] == ParsePiece(pieces[i])
  {
    var rest := ParsePieces(pieces[1..]);
    if pieces[0] == "" {
      ParsePiecesSound(pieces[1..], k);
      var i :| 0 <= i < |pieces[1..]| && pieces[1..][i] != "" && rest[k] == ParsePiece(pieces[1..][i]);
      assert pieces[i + 1] == pieces[1..][i];
    } else if k > 0 {
      ParsePiecesSound(pieces[1..], k - 1);
      var i :| 0 <= i < |pieces[1..]| && pieces[1..][i] != "" && rest[k - 1] == ParsePiece(pieces[1..][i]);
      assert pieces[i + 1] == pieces[1..][i];
    }
  }

  /** Every non-empty piece gives its pair. */
  lemma {:induction false} ParsePiecesComplete(pieces: seq<string>, i: nat)
    requires i < |pieces| && pieces[i] != ""
    ensures ParsePiece(pieces[i]) in ParsePieces(pieces)
  {
    if i > 0 {
      assert pieces[1..][i - 1] == pieces[i];
      ParsePiecesComplete(pieces[1..], i - 1);
    }
  }

  /** The pairs of a search string such as `location.search`. Whatever the string,
      the pairs can be written back and read again unchanged. */
  function ParseSearch(search: string): (ps: seq<Param>)
    ensures Writable(ps)
  {
    var body := if |search| > 0 && search[0] == '?' then search[1..] else search;
    ParsePieces(Split(body, '&'))
  }

  /** `get(name)`: the value of the first pair of that name, if any. */
  function Get(ps: seq<Param>, name: string): (v: Option<string>)
    ensures v.None? <==> forall i :: 0 <= i < |ps| ==> ps[i].name != name
    ensures v.Some? ==> exists i :: (0 <= i < |ps| && ps[i] == Param(name, v.value)
                                      && forall j :: 0 <= j < i ==> ps[j].name != name)
    ensures forall i :: (0 <= i < |ps| && ps[i].name == name
                         && forall j :: 0 <= j < i ==> ps[j].name != name)
                        ==> v == Some(ps[i].value)
  {
    if ps == [] then None
    else if ps[0].name == name then Some(ps[0].value)
    else
      var v := Get(ps[1..], name);
      assert forall j :: 0 < j < |ps| ==> ps[j] == ps[1..][j - 1];
      v
  }

  /** A search string written the usual way: `?` and the pairs as `name=value`
      joined with `&`. */
  function Serialize(ps: seq<Param>): string
  {
    if ps == [] then "?" else "?" + Join(Pieces(ps), '&')
  }

  function Pieces(ps: seq<Param>): (pieces: seq<string>)
    ensures |pieces| == |ps|
    ensures forall i :: 0 <= i < |ps| ==> pieces[i] == ps[i].name + "=" + ps[i].value
  {
    if ps == [] then [] else [ps[0].name + "=" + ps[0].value] + Pieces(ps[1..])
  }

  /** Pairs that survive a write and a read unchanged: no `&` anywhere, no `=` in a name. */
  predicate Writable(ps: seq<Param>)
  {
    forall i :: 0 <= i < |ps| ==> '&' !in ps[i].name && '&' !in ps[i].value && '=' !in ps[i].name
  }

  /** Reading back a written search string gives the pairs that were written. */
  lemma ParseSerialize(ps: seq<Param>)
    requires Writable(ps)
    ensures ParseSearch(Serialize(ps)) == ps
  {
    if ps == [] {
      assert Split("", '&') == [""];
    } else {
      var pieces := Pieces(ps);
      forall i | 0 <= i < |pieces| ensures '&' !in pieces[i] {
        assert pieces[i] == ps[i].name + "=" + ps[i].value;
      }
      SplitJoin(pieces, '&');
      assert Serialize(ps)[1..] == Join(pieces, '&');
      ParseWrittenPieces(ps);
    }
  }

  lemma {:induction false} ParseWrittenPieces(ps: seq<Param>)
    requires Writable(ps)
    ensures ParsePieces(Pieces(ps)) == ps
  {
    if ps != [] {
      var piece := ps[0].name + "=" + ps[0].value;
      assert piece == ps[0].name + ['='] + ps[0].value;
      IndexOfAfter(ps[0].name, '=', ps[0].value);
      var p := ParsePiece(piece);
      assert p.name == ps[0].name;
      assert p.value == ps[0].value;
      assert Pieces(ps)[1..] == Pieces(ps[1..]);
      ParseWrittenPieces(ps[1..]);
    }
  }
}
