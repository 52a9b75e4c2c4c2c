/**
 The member lists of a GET_USER_GROUPS reply: four comma-separated texts the
 server builds in one pass over the members, and their decoding by the client.
 */
module Roster {
  import opened Wrappers
  import opened Text
  import Base64

  datatype Member = Member(id: nat, name: string, nick: seq<bv8>, admin: bool)

  // ---------------------------------------------------------------- the server's loop

  /** Puts a comma only once something has been written, as the server does for all lists but the ids. */
  function Append(csv: string, x: string): string {
    if csv == "" then x else csv + [','] + x
  }

  function AppendAll(csv: string, xs: seq<string>): string
    decreases |xs|
  {
    if xs == [] then csv else AppendAll(Append(csv, xs[0]), xs[1..])
  }

  function IdText(m: Member): string { Decimal(m.id) }
  function NameText(m: Member): string { m.name }
  function NickText(m: Member): string { if m.nick == [] then "" else Base64.EncodeText(m.nick) }
  function AdminText(m: Member): string { if m.admin then "1" else "0" }

  function Texts(ms: seq<Member>, f: Member -> string): (r: seq<string>)
    ensures |r| == |ms| && forall k :: 0 <= k < |r| ==> r[k] == f(ms[k])
  {
    seq(|ms|, i requires 0 <= i < |ms| => f(ms[i]))
  }

  lemma {:induction false} AppendAllSnoc(csv: string, xs: seq<string>, x: string)
    ensures AppendAll(csv, xs + [x]) == Append(AppendAll(csv, xs), x)
    decreases |xs|
  {
    if xs == [] {
      assert xs + [x] == [x];
      assert [x][1..] == [];
    } else {
      AppendAllSnoc(Append(csv, xs[0]), xs[1..], x);
      assert (xs + [x])[1..] == xs[1..] + [x];
    }
  }

  /** The reply texts for one group: ids, nicknames, names, admin flags. */
  method BuildRoster(ms: seq<Member>) returns (ids: string, nicks: string, names: string, admins: string)
    ensures ids == if ms == [] then "" else Join(Texts(ms, IdText), ',')
    ensures nicks == AppendAll("", Texts(ms, NickText))
    ensures names == AppendAll("", Texts(ms, NameText))
    ensures admins == AppendAll("", Texts(ms, AdminText))
  {
    ids, nicks, names, admins := "", "", "", "";
    for j := 0 to |ms|
      invariant ids == if j == 0 then "" else Join(Texts(ms[..j], IdText), ',') + (if j < |ms| then "," else "")
      invariant nicks == AppendAll("", Texts(ms[..j], NickText))
      invariant names == AppendAll("", Texts(ms[..j], NameText))
      invariant admins == AppendAll("", Texts(ms[..j], AdminText))
    {
      Grow(ms, j, IdText);
      Grow(ms, j, NickText);
      Grow(ms, j, NameText);
      Grow(ms, j, AdminText);
      ids := ids + IdText(ms[j]);
      if j + 1 < |ms| {
        ids := ids + ",";
      }
      nicks := Append(nicks, NickText(ms[j]));
      names := Append(names, ms[j].name);
      admins := Append(admins, AdminText(ms[j]));
    }
    assert ms[..|ms|] == ms;
  }

  lemma Grow(ms: seq<Member>, j: nat, f: Member -> string)
    requires j < |ms|
    ensures AppendAll("", Texts(ms[..j + 1], f)) == Append(AppendAll("", Texts(ms[..j], f)), f(ms[j]))
    ensures Join(Texts(ms[..j + 1], f), ',')
         == if j == 0 then f(ms[0]) else Join(Texts(ms[..j], f), ',') + "," + f(ms[j])
  {
    assert Texts(ms[..j + 1], f) == Texts(ms[..j], f) + [f(ms[j])];
    AppendAllSnoc("", Texts(ms[..j], f), f(ms[j]));
    if j > 0 { JoinSnoc(Texts(ms[..j], f), f(ms[j]), ','); }
  }

  // ---------------------------------------------------------------- the client's reading

  function Entries(csv: string): seq<string> {
    if csv == "" then [] else Split(csv, ',')
  }

  function DropEmpty(xs: seq<string>): seq<string> {
    if xs != [] && xs[0] == "" then DropEmpty(xs[1..]) else xs
  }

  predicate CommaFree(xs: seq<string>) {
    forall k :: 0 <= k < |xs| ==> Free(xs[k], ',')
  }

  lemma {:induction false} AppendAllJoin(csv: string, xs: seq<string>)
    requires csv != "" && xs != []
    ensures AppendAll(csv, xs) == csv + [','] + Join(xs, ',')
    decreases |xs|
  {
    if |xs| > 1 {
      AppendAllJoin(csv + [','] + xs[0], xs[1..]);
      assert csv + [','] + xs[0] + [','] + Join(xs[1..], ',') == csv + [','] + (xs[0] + [','] + Join(xs[1..], ','));
    } else {
      assert xs[1..] == [];
    }
  }

  /** What the client reads of a list built by `Append`: the list from its first non-empty entry on. */
  lemma {:induction false} EntriesOfAppended(xs: seq<string>)
    requires CommaFree(xs)
    ensures Entries(AppendAll("", xs)) == DropEmpty(xs)
    decreases |xs|
  {
    if xs != [] {
      if xs[0] == "" {
        EntriesOfAppended(xs[1..]);
      } else if |xs| == 1 {
        assert xs[1..] == [] && xs == [xs[0]];
        SplitCons(xs[0], ',', "");
      } else {
        AppendAllJoin(xs[0], xs[1..]);
        assert Join(xs, ',') == xs[0] + [','] + Join(xs[1..], ',');
        SplitJoin(xs, ',');
      }
    }
  }

  lemma {:induction false} DropEmptyCases(xs: seq<string>)
    ensures (xs == [] || xs[0] != "") ==> DropEmpty(xs) == xs
    ensures (forall k :: 0 <= k < |xs| ==> xs[k] == "") <==> DropEmpty(xs) == []
    ensures DropEmpty(xs) != [] ==> DropEmpty(xs)[0] != ""
  {
    if xs != [] && xs[0] == "" {
      DropEmptyCases(xs[1..]);
      if forall k :: 0 <= k < |xs| ==> xs[k] == "" {
        assert forall k :: 0 <= k < |xs| - 1 ==> xs[1..][k] == xs[k + 1];
      }
      if DropEmpty(xs) == [] {
        forall k | 0 <= k < |xs| ensures xs[k] == "" {
          if k > 0 { assert xs[k] == xs[1..][k - 1]; }
        }
      }
    }
  }

  /** Names come back index by index exactly when none holds a comma (a registered name is never empty). */
  lemma NamesRoundTrip(names: seq<string>)
    requires forall k :: 0 <= k < |names| ==> names[k] != ""
    ensures Entries(AppendAll("", names)) == names <==> CommaFree(names)
  {
    if CommaFree(names) {
      EntriesOfAppended(names);
      DropEmptyCases(names);
    }
    var csv := AppendAll("", names);
    if Entries(csv) == names && csv != "" {
      forall k | 0 <= k < |names| ensures Free(names[k], ',') { SplitFree(csv, ',', k); }
    }
  }

  /** Admin flags come back index by index, always. */
  lemma AdminsRoundTrip(ms: seq<Member>)
    ensures Entries(AppendAll("", Texts(ms, AdminText))) == Texts(ms, AdminText)
    ensures forall k :: 0 <= k < |ms| ==> (Texts(ms, AdminText)[k] == "1" <==> ms[k].admin)
  {
    var xs := Texts(ms, AdminText);
    assert "0"[0] != "1"[0];
    assert forall k :: 0 <= k < |xs| ==> xs[k] == "1" || xs[k] == "0";
    EntriesOfAppended(xs);
    DropEmptyCases(xs);
  }

  /** Ids come back index by index, always. */
  lemma IdsRoundTrip(ms: seq<Member>, k: int)
    requires 0 <= k < |ms|
    ensures |Entries(Join(Texts(ms, IdText), ','))| == |ms|
    ensures Stoi(Entries(Join(Texts(ms, IdText), ','))[k]) == Some(ms[k].id)
  {
    var xs := Texts(ms, IdText);
    forall i | 0 <= i < |xs| ensures Free(xs[i], ',') {
      assert forall j :: 0 <= j < |xs[i]| ==> IsDigit(xs[i][j]);
    }
    SplitJoin(xs, ',');
    assert Join(xs, ',') != "" by {
      assert xs[0] != "";
    }
    StoiDecimal(ms[k].id);
  }

  /** The nickname the client stores for the member at index k. */
  function ClientNick(csv: string, k: nat): Option<seq<bv8>> {
    var list := Entries(csv);
    if k < |list| && list[k] != "" then Base64.DecodeText(list[k]) else None
  }

  function ServerNick(m: Member): Option<seq<bv8>> {
    if m.nick == [] then None else Some(m.nick)
  }

  lemma NickTexts(ms: seq<Member>)
    ensures CommaFree(Texts(ms, NickText))
    ensures forall k :: 0 <= k < |ms| ==> (Texts(ms, NickText)[k] == "" <==> ms[k].nick == [])
    ensures forall k :: 0 <= k < |ms| && ms[k].nick != [] ==>
              Base64.DecodeText(Texts(ms, NickText)[k]) == Some(ms[k].nick)
  {
    forall k | 0 <= k < |ms|
      ensures Free(Texts(ms, NickText)[k], ',') && (Texts(ms, NickText)[k] == "" <==> ms[k].nick == [])
      ensures ms[k].nick != [] ==> Base64.DecodeText(Texts(ms, NickText)[k]) == Some(ms[k].nick)
    {
      Base64.TextRoundTrip(ms[k].nick);
    }
  }

  /** Every member gets the right nickname exactly when the first member has one or no member has. */
  lemma NicksAlignedIff(ms: seq<Member>)
    ensures (forall k :: 0 <= k < |ms| ==> ClientNick(AppendAll("", Texts(ms, NickText)), k) == ServerNick(ms[k]))
       <==> (ms == [] || ms[0].nick != [] || forall k :: 0 <= k < |ms| ==> ms[k].nick == [])
  {
    var xs := Texts(ms, NickText);
    var csv := AppendAll("", xs);
    NickTexts(ms);
    EntriesOfAppended(xs);
    DropEmptyCases(xs);
    if ms != [] && ms[0].nick == [] && DropEmpty(xs) != [] {
      FirstIsWrong(ms, DropEmpty(xs)[0]);
      assert ClientNick(csv, 0) != ServerNick(ms[0]);
    }
  }

  lemma {:induction false} FirstIsWrong(ms: seq<Member>, t: string)
    requires DropEmpty(Texts(ms, NickText)) != [] && t == DropEmpty(Texts(ms, NickText))[0]
    ensures t != "" && Base64.DecodeText(t).Some?
  {
    NickTexts(ms);
    var xs := Texts(ms, NickText);
    if xs[0] == "" {
      assert xs[1..] == Texts(ms[1..], NickText);
      FirstIsWrong(ms[1..], t);
    }
  }

  /** The texts of a group of two: ids and names in order, 1 for an admin and 0 for a plain member. */
  lemma RosterExample()
    ensures var ms := [Member(1, "ann", [], true), Member(2, "bob", [], false)];
            && Join(Texts(ms, IdText), ',') == "1,2" && AppendAll("", Texts(ms, NameText)) == "ann,bob"
            && AppendAll("", Texts(ms, AdminText)) == "1,0" && AppendAll("", Texts(ms, NickText)) == ""
  {
    var ms := [Member(1, "ann", [], true), Member(2, "bob", [], false)];
    assert Decimal(1) == "1" && Decimal(2) == "2";
    TwoTexts("1", "2");
    TwoTexts("ann", "bob");
    TwoTexts("1", "0");
    TwoTexts("", "");
    assert Texts(ms, IdText) == ["1", "2"] && Texts(ms, NameText) == ["ann", "bob"];
    assert Texts(ms, AdminText) == ["1", "0"] && Texts(ms, NickText) == ["", ""];
  }

  lemma TwoTexts(a: string, b: string)
    ensures AppendAll("", [a, b]) == (if a == "" then b else a + "," + b) && Join([a, b], ',') == a + "," + b
  {
    assert [a, b][1..] == [b] && [b][1..] == [];
    assert AppendAll("", [a, b]) == AppendAll(a, [b]);
    assert AppendAll(a, [b]) == AppendAll(Append(a, b), []);
  }
}
