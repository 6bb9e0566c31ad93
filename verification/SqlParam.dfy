/** Reading the SQL text out of a URL's query. */
module SqlParam {
  import opened Segments
  import opened StringUtils

  const KEY := "sql"

  // The pieces of a query string between ampersands.
  function Pieces(qs: string): (pieces: seq<string>)
    decreases |qs|
  {
    var k := IndexFrom(qs, '&', 0);
    if k == |qs| then [qs] else [qs[..k]] + Pieces(qs[k + 1..])
  }

  predicate IsSql(piece: string) { KEY + "=" <= piece }

  // The value of the first piece named sql, "" if there is none.
  function FirstSql(pieces: seq<string>): string {
    if pieces == [] then [] else if IsSql(pieces[0]) then pieces[0][|KEY| + 1..] else FirstSql(pieces[1..])
  }

  function SqlOf(url: string): string {
    var q := IndexFrom(url, '?', 0);
    if q == |url| then [] else Decode(FirstSql(Pieces(url[q + 1..])))
  }

  lemma {:induction false} PiecesStep(qs: string)
    ensures var k := IndexFrom(qs, '&', 0);
      Pieces(qs) == if k == |qs| then [qs] else [qs[..k]] + Pieces(qs[k + 1..])
  {
  }

  lemma {:induction false} PiecesFrom(qs: string, i: nat)
    requires i <= |qs|
    ensures var amp := IndexFrom(qs, '&', i);
      Pieces(qs[i..]) == [qs[i..amp]] + if amp == |qs| then [] else Pieces(qs[amp + 1..])
  {
    hide Pieces, IndexFrom;
    var rest := qs[i..];
    var amp := IndexFrom(qs, '&', i);
    assert rest[..amp - i] == qs[i..amp];
    IndexIs(rest, '&', amp - i);
    PiecesStep(rest);
    if amp == |qs| {
      assert rest == qs[i..amp];
    } else {
      assert rest[amp - i + 1..] == qs[amp + 1..];
    }
  }

  // The key before the first equals sign is "sql".
  lemma KeyIsSql(seg: string)
    ensures var eq := IndexFrom(seg, '=', 0);
      && (IsSql(seg) <==> eq < |seg| && seg[..eq] == KEY)
      && (IsSql(seg) ==> eq == |KEY|)
  {
    var eq := IndexFrom(seg, '=', 0);
    hide IndexFrom;
    if IsSql(seg) {
      SqlStart(seg);
      IndexIs(seg, '=', 3);
    }
    if eq < |seg| && seg[..eq] == KEY {
      assert seg[..eq + 1] == KEY + "=";
    }
  }

  lemma SqlStart(seg: string)
    requires IsSql(seg)
    ensures |seg| > 3 && seg[..3] == KEY && '=' !in seg[..3] && seg[3] == '='
  {
    assert seg[..4] == KEY + "=";
    assert seg[..3] == seg[..4][..3] && seg[3] == seg[..4][3];
  }

  lemma FirstSqlCons(piece: string, pieces: seq<string>)
    ensures FirstSql([piece] + pieces) == if IsSql(piece) then piece[|KEY| + 1..] else FirstSql(pieces)
  {
    assert ([piece] + pieces)[1..] == pieces;
  }

  // What the loop looks for, from the piece at i on.
  lemma FirstFrom(qs: string, i: nat)
    requires i <= |qs|
    ensures var amp := IndexFrom(qs, '&', i);
      FirstSql(Pieces(qs[i..])) == if IsSql(qs[i..amp]) then qs[i..amp][|KEY| + 1..]
                                   else if amp == |qs| then [] else FirstSql(Pieces(qs[amp + 1..]))
  {
    hide Pieces, FirstSql, IsSql, IndexFrom;
    var amp := IndexFrom(qs, '&', i);
    var piece, rest := qs[i..amp], if amp == |qs| then [] else Pieces(qs[amp + 1..]);
    PiecesFrom(qs, i);
    FirstSqlCons(piece, rest);
    NoPieces();
  }

  method ExtractSqlParam(url: string) returns (sql: string)
    ensures sql == SqlOf(url)
  {
    hide Decode, Pieces, FirstSql, IsSql, IndexFrom;
    var q := IndexFrom(url, '?', 0);
    if q == |url| {
      return "";
    }
    var qs := url[q + 1..];
    var start := 0;
    assert qs[0..] == qs;
    while start < |qs|
      invariant 0 <= start <= |qs|
      invariant FirstSql(Pieces(qs)) == FirstSql(Pieces(qs[start..]))
    {
      var amp := IndexFrom(qs, '&', start);
      var seg := qs[start..amp];
      FirstFrom(qs, start);
      KeyIsSql(seg);
      var eq := IndexFrom(seg, '=', 0);
      if eq != |seg| {
        var key := seg[..eq];
        if key == KEY {
          sql := UrlDecode(seg[eq + 1..]);
          return;
        }
      }
      if amp == |qs| {
        NoPieces();
        return "";
      }
      start := amp + 1;
    }
    assert qs[start..] == [];
    NoPieces();
    return "";
  }

  lemma NoPieces()
    ensures FirstSql([]) == [] && FirstSql(Pieces([])) == [] && Decode([]) == []
  {
  }

  // ------------------------------------------------------------------ recovery

  // A query built from pieces, each followed by an ampersand.
  function Listed(pieces: seq<string>): string {
    if pieces == [] then [] else pieces[0] + "&" + Listed(pieces[1..])
  }

  // Parameters of other names, as a client may put before the one read here.
  predicate Others(pieces: seq<string>) {
    forall i | 0 <= i < |pieces| :: '&' !in pieces[i] && !("sql=" <= pieces[i])
  }

  lemma PiecesOfFirst(piece: string, rest: string)
    requires '&' !in piece
    ensures Pieces(piece) == [piece]
    ensures Pieces(piece + "&" + rest) == [piece] + Pieces(rest)
  {
    IndexIs(piece, '&', |piece|);
    var qs := piece + "&" + rest;
    assert qs[..|piece|] == piece && qs[|piece| + 1..] == rest;
    IndexIs(qs, '&', |piece|);
  }

  lemma NotSql(piece: string)
    ensures IsSql(piece) <==> "sql=" <= piece
  {
    assert KEY + "=" == "sql=";
  }

  lemma {:induction false} SkipOthers(before: seq<string>, rest: string)
    requires Others(before)
    ensures FirstSql(Pieces(Listed(before) + rest)) == FirstSql(Pieces(rest))
  {
    hide Pieces, FirstSql, IsSql;
    if before == [] {
      assert Listed(before) + rest == rest;
    } else {
      var tail := Listed(before[1..]) + rest;
      SkipOthers(before[1..], rest);
      NotSql(before[0]);
      PiecesOfFirst(before[0], tail);
      FirstSqlCons(before[0], Pieces(tail));
      assert Listed(before) + rest == before[0] + "&" + tail;
    }
  }

  // SQL text encoded after "sql=" comes back whole, whatever other parameters stand around it and
  // whatever follows it.
  lemma SqlIsRecovered(path: string, before: seq<string>, sql: string, after: string)
    requires '?' !in path && Others(before) && IsBytes(sql) && (after == [] || after[0] == '&')
    ensures SqlOf(path + "?" + Listed(before) + "sql=" + Encode(sql) + after) == sql
  {
    hide Decode, Encode, Pieces, FirstSql, IsBytes;
    var piece := "sql=" + Encode(sql);
    var url := path + "?" + Listed(before) + "sql=" + Encode(sql) + after;
    var qs := Listed(before) + (piece + after);
    assert url == path + "?" + qs;
    IndexIs(url, '?', |path|) by {
      assert url[..|path|] == path;
    }
    assert url[|path| + 1..] == qs;
    SkipOthers(before, piece + after);
    EncodedPiece(sql);
    if after == [] {
      PiecesOfFirst(piece, []);
      assert piece + after == piece && [piece] + [] == [piece];
      FirstSqlCons(piece, []);
    } else {
      PiecesOfFirst(piece, after[1..]);
      assert piece + after == piece + "&" + after[1..];
      FirstSqlCons(piece, Pieces(after[1..]));
    }
    assert piece[|KEY| + 1..] == Encode(sql);
    DecodeInvertsEncode(sql);
  }

  // Without a parameter of that name there is no SQL text.
  lemma NoSqlParameter(path: string, others: seq<string>, last: string)
    requires '?' !in path && Others(others + [last])
    ensures SqlOf(path) == ""
    ensures SqlOf(path + "?" + Listed(others) + last) == ""
  {
    hide Decode, Pieces, FirstSql, IsSql;
    assert (others + [last])[|others|] == last;
    assert Others(others) by {
      assert forall i | 0 <= i < |others| :: (others + [last])[i] == others[i];
    }
    IndexIs(path, '?', |path|);
    var url := path + "?" + Listed(others) + last;
    var qs := Listed(others) + last;
    assert url == path + "?" + qs && url[..|path|] == path && url[|path| + 1..] == qs;
    IndexIs(url, '?', |path|);
    SkipOthers(others, last);
    PiecesOfFirst(last, []);
    FirstSqlCons(last, []);
    NotSql(last);
    assert [last] + [] == [last];
    NoPieces();
    assert FirstSql(Pieces(qs)) == "";
  }

  lemma EncodedPiece(sql: string)
    ensures '&' !in "sql=" + Encode(sql) && IsSql("sql=" + Encode(sql))
  {
    EncodedAlphabet(sql);
    hide Encode;
    assert ("sql=" + Encode(sql))[..4] == KEY + "=";
  }
}
