/**
 The `key=value&key=value` payload format: the server's parser and serializer, the
 client's C++ parser, and the parser the Android activity uses.
 */
module KeyValue {
  import opened Text

  type Item = (string, string)

  /** What one piece between two `&` does to the map: nothing without a `=`, else a later key wins. */
  function Put(m: map<string, string>, piece: string): map<string, string> {
    var p := Find(piece, '=');
    if p == |piece| then m else m[piece[..p] := piece[p + 1..]]
  }

  function PutAll(m: map<string, string>, pieces: seq<string>): map<string, string>
    decreases |pieces|
  {
    if pieces == [] then m else PutAll(Put(m, pieces[0]), pieces[1..])
  }

  function Parse(s: string): map<string, string> {
    PutAll(map[], Getlines(s, '&'))
  }

  /** The server's `parse_kv`: read a piece, look for its first `=`. */
  method ParseKv(s: string) returns (m: map<string, string>)
    ensures m == Parse(s)
  {
    m := map[];
    var rest := s;
    while rest != ""
      invariant PutAll(m, Getlines(rest, '&')) == Parse(s)
      decreases |rest|
    {
      var i := Find(rest, '&');
      m := Put(m, rest[..i]);
      rest := if i == |rest| then "" else rest[i + 1..];
    }
  }

  /** A piece that has two parts around its first `=` makes a pair. */
  function PairOf(piece: string): seq<Item> {
    var parts := SplitLimit(piece, '=', 2);
    if |parts| == 2 then [(parts[0], parts[1])] else []
  }

  function Pairs(pieces: seq<string>): seq<Item>
    decreases |pieces|
  {
    if pieces == [] then [] else PairOf(pieces[0]) + Pairs(pieces[1..])
  }

  /** The activity's parser: `split("&")`, `split("=", limit = 2)` on each piece, and `toMap` on the pairs. */
  function ParseBySplit(s: string): map<string, string> {
    LastWins(map[], Pairs(Split(s, '&')))
  }

  /** The two parts are what looking for the first `=` finds. */
  lemma PairOfPiece(piece: string)
    ensures var p := Find(piece, '=');
            PairOf(piece) == if p == |piece| then [] else [(piece[..p], piece[p + 1..])]
  {
    hide SplitLimit, Find;
    SplitInTwo(piece, '=');
  }

  lemma PairThenRest(m: map<string, string>, piece: string, items: seq<Item>)
    ensures LastWins(m, PairOf(piece) + items) == LastWins(Put(m, piece), items)
  {
    hide PairOf;
    PairOfPiece(piece);
    var p := Find(piece, '=');
    if p == |piece| {
      assert PairOf(piece) + items == items;
    } else {
      var item := (piece[..p], piece[p + 1..]);
      assert ([item] + items)[1..] == items;
    }
  }

  lemma {:induction false} PairsPut(m: map<string, string>, pieces: seq<string>)
    ensures LastWins(m, Pairs(pieces)) == PutAll(m, pieces)
    decreases |pieces|
  {
    hide PairOf, Put, LastWins;
    if pieces == [] {
      NoItems(m);
    } else {
      PairThenRest(m, pieces[0], Pairs(pieces[1..]));
      PairsPut(Put(m, pieces[0]), pieces[1..]);
    }
  }

  lemma NoItems(m: map<string, string>)
    ensures LastWins(m, []) == m
  {}

  /** The parser of the activity and the parser of the server agree on every payload. */
  lemma ParsersAgree(s: string)
    ensures ParseBySplit(s) == Parse(s)
  {
    PairsPut(map[], Split(s, '&'));
    SplitVsGetlines(s, '&');
    PutEmptyLast(map[], Getlines(s, '&'));
  }

  lemma {:induction false} PutEmptyLast(m: map<string, string>, pieces: seq<string>)
    ensures PutAll(m, pieces + [""]) == PutAll(m, pieces)
    decreases |pieces|
  {
    if pieces == [] {
      assert PutAll(m, [""]) == PutAll(Put(m, ""), [""][1..]);
    } else {
      PutEmptyLast(Put(m, pieces[0]), pieces[1..]);
      assert (pieces + [""])[1..] == pieces[1..] + [""];
    }
  }

  // ---------------------------------------------------------------- serializing

  function Piece(item: Item): string {
    item.0 + ['='] + item.1
  }

  function Serialize(items: seq<Item>): string
    decreases |items|
  {
    if items == [] then ""
    else if |items| == 1 then Piece(items[0])
    else Piece(items[0]) + ['&'] + Serialize(items[1..])
  }

  /** `serialize_kv`: a separator before every item but the first. */
  method SerializeKv(items: seq<Item>) returns (s: string)
    ensures s == Serialize(items)
  {
    hide Remaining, Piece;
    s := "";
    RemainingEnds(items);
    for i := 0 to |items|
      invariant s + Remaining(items, i) == Serialize(items)
    {
      RemainingStep(items, i);
      if i > 0 {
        s := s + ['&'];
      }
      s := s + items[i].0 + ['='] + items[i].1;
    }
  }

  lemma RemainingEnds(items: seq<Item>)
    ensures Remaining(items, 0) == Serialize(items) && Remaining(items, |items|) == ""
  {
    assert items[0..] == items;
  }

  lemma RemainingStep(items: seq<Item>, i: nat)
    requires i < |items|
    ensures Remaining(items, i)
         == (if i > 0 then ['&'] else []) + (items[i].0 + ['='] + items[i].1) + Remaining(items, i + 1)
  {
    assert items[i..][0] == items[i] && items[i..][1..] == items[i + 1..];
  }

  /** What the serializer has yet to write when it comes to item i. */
  function Remaining(items: seq<Item>, i: nat): string
    requires i <= |items|
  {
    if i == |items| then "" else (if i > 0 then ['&'] else []) + Serialize(items[i..])
  }

  function LastWins(m: map<string, string>, items: seq<Item>): map<string, string>
    decreases |items|
  {
    if items == [] then m else LastWins(m[items[0].0 := items[0].1], items[1..])
  }

  // ---------------------------------------------------------------- the round trip

  /** A key holds neither separator; a value may hold `=` but no `&`. */
  predicate CleanItem(item: Item) {
    Free(item.0, '=') && Free(item.0, '&') && Free(item.1, '&')
  }

  lemma PutPiece(m: map<string, string>, item: Item)
    requires Free(item.0, '=')
    ensures Put(m, Piece(item)) == m[item.0 := item.1]
  {
    FindAppend(item.0, '=', item.1);
  }

  lemma PieceFree(item: Item)
    requires CleanItem(item)
    ensures Free(Piece(item), '&') && Piece(item) != ""
  {}

  lemma {:induction false} ParseSerialized(m: map<string, string>, items: seq<Item>)
    requires forall k :: 0 <= k < |items| ==> CleanItem(items[k])
    ensures PutAll(m, Getlines(Serialize(items), '&')) == LastWins(m, items)
    decreases |items|
  {
    if items != [] {
      var first, rest := items[0], items[1..];
      var m1 := m[first.0 := first.1];
      assert CleanItem(first);
      PieceFree(first);
      PutPiece(m, first);
      ParseSerialized(m1, rest);
      if |items| == 1 {
        GetlinesLast(Piece(first), '&');
      } else {
        GetlinesCons(Piece(first), '&', Serialize(rest));
      }
    }
  }

  /** Parsing what was serialized gives the list's last-wins map. */
  lemma RoundTrip(items: seq<Item>)
    requires forall k :: 0 <= k < |items| ==> CleanItem(items[k])
    ensures Parse(Serialize(items)) == LastWins(map[], items)
  {
    ParseSerialized(map[], items);
  }

  ghost predicate CleanMap(m: map<string, string>) {
    forall k :: k in m ==> CleanItem((k, m[k]))
  }

  lemma {:induction false} PutAllClean(m: map<string, string>, pieces: seq<string>)
    requires CleanMap(m) && forall k :: 0 <= k < |pieces| ==> Free(pieces[k], '&')
    ensures CleanMap(PutAll(m, pieces))
    decreases |pieces|
  {
    if pieces != [] {
      var piece := pieces[0];
      assert Free(piece, '&');
      var p := Find(piece, '=');
      if p < |piece| {
        assert CleanItem((piece[..p], piece[p + 1..]));
      }
      PutAllClean(Put(m, piece), pieces[1..]);
    }
  }

  lemma ParsedClean(s: string)
    ensures CleanMap(Parse(s))
  {
    var pieces := Getlines(s, '&');
    forall k | 0 <= k < |pieces| ensures Free(pieces[k], '&') { GetlinesFree(s, '&', k); }
    PutAllClean(map[], pieces);
  }

  predicate DistinctKeys(items: seq<Item>) {
    forall i, j :: 0 <= i < j < |items| ==> items[i].0 != items[j].0
  }

  lemma {:induction false} LastWinsHolds(m: map<string, string>, items: seq<Item>, k: int)
    requires DistinctKeys(items) && 0 <= k < |items|
    ensures items[k].0 in LastWins(m, items) && LastWins(m, items)[items[k].0] == items[k].1
    decreases |items|
  {
    if k == 0 {
      LastWinsKeeps(m[items[0].0 := items[0].1], items[1..], items[0].0);
    } else {
      LastWinsHolds(m[items[0].0 := items[0].1], items[1..], k - 1);
    }
  }

  lemma {:induction false} LastWinsKeeps(m: map<string, string>, items: seq<Item>, key: string)
    requires key in m && forall i :: 0 <= i < |items| ==> items[i].0 != key
    ensures key in LastWins(m, items) && LastWins(m, items)[key] == m[key]
    decreases |items|
  {
    if items != [] {
      assert items[0].0 != key;
      LastWinsKeeps(m[items[0].0 := items[0].1], items[1..], key);
    }
  }

  /** For items with distinct keys the round trip holds exactly when every item is clean. */
  lemma RoundTripIffClean(items: seq<Item>)
    requires DistinctKeys(items)
    ensures Parse(Serialize(items)) == LastWins(map[], items)
       <==> forall k :: 0 <= k < |items| ==> CleanItem(items[k])
  {
    if forall k :: 0 <= k < |items| ==> CleanItem(items[k]) {
      RoundTrip(items);
    }
    if Parse(Serialize(items)) == LastWins(map[], items) {
      ParsedClean(Serialize(items));
      forall k | 0 <= k < |items| ensures CleanItem(items[k]) {
        LastWinsHolds(map[], items, k);
      }
    }
  }

  /** The format on an example: the first `=` ends a key, a later key wins, a piece without `=` is dropped. */
  lemma FormatExample()
    ensures Serialize([("a", "1"), ("b", "x=y")]) == "a=1&b=x=y"
    ensures Parse("a=1&b=x=y") == map["a" := "1", "b" := "x=y"]
  {
    var items: seq<Item> := [("a", "1"), ("b", "x=y")];
    assert items[1..] == [("b", "x=y")];
    assert Serialize(items) == "a=1&b=x=y";
    RoundTrip(items);
    assert LastWins(map["a" := "1"], items[1..]) == map["a" := "1"]["b" := "x=y"];
  }
}
