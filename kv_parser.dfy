/** The Go helper for "key:value,key:value" configuration items: a parser built with
    two separators (":" and "," when left empty) that maps each key to its value. */
module KvParser {
  import opened Text

  /** A separator the parser splits on; never empty once defaults are applied. */
  type Sep = s: string | s != "" witness ","

  /** The closure SimpleKVMapParser returns, with the separators it captured. */
  datatype Parser = Parser(kvSep: Sep, itemSep: Sep)

  /** SimpleKVMapParser: an empty key/value separator becomes ":", an empty item
      separator becomes ","; given ones are kept. */
  function SimpleKVMapParser(kvSep: string, itemSep: string): (p: Parser)
    ensures kvSep == "" ==> p.kvSep == ":"
    ensures kvSep != "" ==> p.kvSep == kvSep
    ensures itemSep == "" ==> p.itemSep == ","
    ensures itemSep != "" ==> p.itemSep == itemSep
  {
    Parser(if kvSep == "" then ":" else kvSep, if itemSep == "" then "," else itemSep)
  }

  /** The key and value of one item: the text before the first separator, and the
      text between the first and the second (anything after a second separator is
      dropped); an item without the separator is a key with the empty value. */
  function Entry(piece: string, kvSep: Sep): (r: (string, string))
    ensures IndexOf(piece, kvSep).None? ==> r == (piece, "")
  {
    var parts := Split(piece, kvSep);
    if |parts| == 1 then (parts[0], "") else (parts[0], parts[1])
  }

  /** An item written as a key, one separator character and a value, neither holding
      that character, reads back as exactly that key and value. */
  lemma EntryOfPair(k: string, v: string, c: char)
    requires c !in k && c !in v
    ensures Entry(k + [c] + v, [c]) == (k, v)
  {
    JoinTwo(k, v, [c]);
    SplitJoin([k, v], c);
  }

  /** Neither the key nor the value of an item contains the separator. */
  lemma EntryPartsAreFree(piece: string, kvSep: Sep)
    ensures forall j :: !OccursAt(Entry(piece, kvSep).0, kvSep, j)
    ensures forall j :: !OccursAt(Entry(piece, kvSep).1, kvSep, j)
  {
    SplitPiecesAreFree(piece, kvSep, 0);
    if |Split(piece, kvSep)| > 1 {
      SplitPiecesAreFree(piece, kvSep, 1);
    }
  }

  /** The map the items build, each item overwriting any earlier value of its key. */
  function Parsed(pieces: seq<string>, kvSep: Sep): map<string, string>
    decreases |pieces|
  {
    if pieces == [] then map[]
    else
      var e := Entry(pieces[|pieces| - 1], kvSep);
      Parsed(pieces[..|pieces| - 1], kvSep)[e.0 := e.1]
  }

  /** The returned closure: split on the item separator, then record every item's
      entry in order. It never fails. */
  method Parse(p: Parser, v: string) returns (result: map<string, string>)
    ensures result == Parsed(Split(v, p.itemSep), p.kvSep)
  {
    result := map[];
    var pieces := Split(v, p.itemSep);
    var i := 0;
    while i < |pieces|
      invariant 0 <= i <= |pieces|
      invariant result == Parsed(pieces[..i], p.kvSep)
    {
      var parts := Split(pieces[i], p.kvSep);
      if |parts| == 1 {
        parts := parts + [""];
      }
      assert pieces[..i + 1][..i] == pieces[..i];
      result := result[parts[0] := parts[1]];
      i := i + 1;
    }
    assert pieces[..i] == pieces;
  }

  /** A key is present iff some item has it. */
  lemma KeyPresentIffSomeItemHasIt(pieces: seq<string>, kvSep: Sep, k: string)
    ensures k in Parsed(pieces, kvSep) <==> exists i :: 0 <= i < |pieces| && Entry(pieces[i], kvSep).0 == k
  {
    if k in Parsed(pieces, kvSep) {
      var i := PresentKeyHasItem(pieces, kvSep, k);
    }
    if exists i :: 0 <= i < |pieces| && Entry(pieces[i], kvSep).0 == k {
      var i :| 0 <= i < |pieces| && Entry(pieces[i], kvSep).0 == k;
      ItemKeyIsPresent(pieces, kvSep, i);
    }
  }

  /** A present key comes from some item: the witness is the last item with it. */
  lemma {:induction false} PresentKeyHasItem(pieces: seq<string>, kvSep: Sep, k: string) returns (i: nat)
    requires k in Parsed(pieces, kvSep)
    ensures i < |pieces| && Entry(pieces[i], kvSep).0 == k
    decreases |pieces|
  {
    var n := |pieces| - 1;
    var e := Entry(pieces[n], kvSep);
    if e.0 == k {
      i := n;
    } else {
      var p := pieces[..n];
      i := PresentKeyHasItem(p, kvSep, k);
      assert p[i] == pieces[i];
    }
  }

  /** Every item's key is present. */
  lemma {:induction false} ItemKeyIsPresent(pieces: seq<string>, kvSep: Sep, i: nat)
    requires i < |pieces|
    ensures Entry(pieces[i], kvSep).0 in Parsed(pieces, kvSep)
    decreases |pieces|
  {
    var n := |pieces| - 1;
    if i < n {
      var p := pieces[..n];
      assert p[i] == pieces[i];
      ItemKeyIsPresent(p, kvSep, i);
    }
  }

  /** A key's value is that of the last item with the key: later items overwrite
      earlier ones. */
  lemma {:induction false} LastItemWins(pieces: seq<string>, kvSep: Sep, i: nat)
    requires i < |pieces|
    requires forall j :: i < j < |pieces| ==> Entry(pieces[j], kvSep).0 != Entry(pieces[i], kvSep).0
    ensures Entry(pieces[i], kvSep).0 in Parsed(pieces, kvSep)
    ensures Parsed(pieces, kvSep)[Entry(pieces[i], kvSep).0] == Entry(pieces[i], kvSep).1
    decreases |pieces|
  {
    var n := |pieces| - 1;
    if i < n {
      var p := pieces[..n];
      assert p[i] == pieces[i];
      LastItemWins(p, kvSep, i);
    }
  }

  /** The empty input is one empty item, so it yields the empty key with the empty value. */
  lemma EmptyInputYieldsEmptyKey(p: Parser)
    ensures Parsed(Split("", p.itemSep), p.kvSep) == map["" := ""]
  {
    assert IndexOf("", p.itemSep) == None;
    assert Split("", p.itemSep) == [""];
    assert IndexOf("", p.kvSep) == None;
  }

  /** With the default separator, an item without it maps to the empty value. */
  lemma ItemWithoutSeparatorExample()
    ensures Entry("a", ":") == ("a", "")
  {
    SingleCharAbsent("a", ':');
  }

  /** With the default separator, a second ':' cuts the value short. */
  lemma SecondSeparatorCutsValueExample()
    ensures Entry("a:1:2", ":") == ("a", "1")
  {
    JoinThree("a", "1", "2", ":");
    assert Join(["a", "1", "2"], ":") == "a:1:2";
    SplitJoin(["a", "1", "2"], ':');
  }
}
