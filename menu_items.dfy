/** The order form's menu-items text: a comma-separated list typed by the
    user, turned into the ordered list of item names the server receives,
    and built back from a stored list when an order is edited. */
module MenuItemsInput {
  import opened JsRuntime

  /** An item name as a submitted order carries it: non-empty, free of
      commas, with no whitespace at either end. */
  predicate IsCleanItem(x: string) {
    x != "" && IsTrimmedPiece(x)
  }

  /** A trimmed piece of the split text: comma-free, and either empty or
      with no whitespace at either end. */
  predicate IsTrimmedPiece(x: string) {
    ',' !in x && (x == "" || (!IsWhitespace(x[0]) && !IsWhitespace(x[|x| - 1])))
  }

  /** `pieces.map(item => item.trim())`. */
  function TrimEach(pieces: seq<string>): (r: seq<string>)
    ensures |r| == |pieces|
  {
    if pieces == [] then [] else [Trim(pieces[0])] + TrimEach(pieces[1..])
  }

  /** Each piece is trimmed in place. */
  lemma {:induction false} TrimEachPieces(pieces: seq<string>)
    ensures forall k :: 0 <= k < |pieces| ==> TrimEach(pieces)[k] == Trim(pieces[k])
  {
    if pieces != [] {
      TrimEachPieces(pieces[1..]);
    }
  }

  /** `items.filter(item => item !== '')`. */
  function DropEmpty(items: seq<string>): (r: seq<string>)
    ensures |r| <= |items|
  {
    if items == [] then []
    else if items[0] == "" then DropEmpty(items[1..])
    else [items[0]] + DropEmpty(items[1..])
  }

  /** `text.split(',').map(item => item.trim()).filter(item => item !== '')`. */
  function ParseMenuItems(text: string): (r: seq<string>)
    ensures |r| <= |Split(text, ',')|
  {
    DropEmpty(TrimEach(Split(text, ',')))
  }

  /** Dropping the empty pieces leaves only clean items. */
  lemma {:induction false} DropEmptyClean(pieces: seq<string>)
    requires forall j :: 0 <= j < |pieces| ==> IsTrimmedPiece(pieces[j])
    ensures forall k :: 0 <= k < |DropEmpty(pieces)| ==> IsCleanItem(DropEmpty(pieces)[k])
  {
    if pieces != [] {
      DropEmptyClean(pieces[1..]);
    }
  }

  /** Every submitted item is non-empty, comma-free and trimmed. */
  lemma ParseMenuItemsClean(text: string)
    ensures forall k :: 0 <= k < |ParseMenuItems(text)| ==> IsCleanItem(ParseMenuItems(text)[k])
  {
    var pieces := Split(text, ',');
    TrimmedPieces(pieces);
    DropEmptyClean(TrimEach(pieces));
  }

  /** A comma-free piece trims to a trimmed piece. */
  lemma TrimmedPiece(piece: string)
    requires ',' !in piece
    ensures IsTrimmedPiece(Trim(piece))
  {
    TrimSpec(piece);
    TrimKeepsOut(piece, ',');
  }

  lemma TrimmedPieces(pieces: seq<string>)
    requires forall j :: 0 <= j < |pieces| ==> ',' !in pieces[j]
    ensures forall j :: 0 <= j < |pieces| ==> IsTrimmedPiece(TrimEach(pieces)[j])
  {
    TrimEachPieces(pieces);
    forall j | 0 <= j < |pieces| ensures IsTrimmedPiece(TrimEach(pieces)[j]) {
      TrimmedPiece(pieces[j]);
    }
  }

  /** `items.join(', ')`: the menu-items text of an order being edited,
      as long as the items plus two characters between each pair. */
  function MenuItemsText(items: seq<string>): (r: string)
    ensures items == [] ==> r == ""
    ensures items != [] ==> |r| == TotalLength(items) + 2 * (|items| - 1)
  {
    if items == [] then ""
    else
      JoinLength(items, ", ");
      Join(items, ", ")
  }

  lemma {:induction false} TrimEachAppend(a: seq<string>, b: seq<string>)
    ensures TrimEach(a + b) == TrimEach(a) + TrimEach(b)
  {
    if a == [] {
      assert a + b == b;
    } else {
      assert (a + b)[1..] == a[1..] + b;
      TrimEachAppend(a[1..], b);
    }
  }

  lemma {:induction false} DropEmptyAppend(a: seq<string>, b: seq<string>)
    ensures DropEmpty(a + b) == DropEmpty(a) + DropEmpty(b)
  {
    if a == [] {
      assert a + b == b;
    } else {
      assert (a + b)[1..] == a[1..] + b;
      DropEmptyAppend(a[1..], b);
    }
  }

  /** The items of text around a comma are those before it followed by those
      after it: parsing keeps the order of the pieces. */
  lemma ParseMenuItemsAppend(a: string, b: string)
    ensures ParseMenuItems(a + [','] + b) == ParseMenuItems(a) + ParseMenuItems(b)
  {
    SplitConcat(a, b, ',');
    TrimEachAppend(Split(a, ','), Split(b, ','));
    DropEmptyAppend(TrimEach(Split(a, ',')), TrimEach(Split(b, ',')));
  }

  /** Text without a comma is one item, its trim, unless that is empty. */
  lemma ParseMenuItemsSingle(s: string)
    requires ',' !in s
    ensures ParseMenuItems(s) == if Trim(s) == "" then [] else [Trim(s)]
  {
    SplitNoSeparator(s, ',');
    assert TrimEach([s]) == [Trim(s)];
    assert DropEmpty([Trim(s)]) == if Trim(s) == "" then [] else [Trim(s)];
  }

  /** Whitespace in front of the text does not change the items. */
  lemma ParseMenuItemsPadded(pad: string, s: string)
    requires forall k :: 0 <= k < |pad| ==> IsWhitespace(pad[k])
    ensures ParseMenuItems(pad + s) == ParseMenuItems(s)
  {
    assert !IsWhitespace(',');
    SplitPrefix(pad, s, ',');
    var ps := Split(s, ',');
    TrimPadded(pad, ps[0]);
    assert TrimEach(Split(pad + s, ',')) == TrimEach(ps);
  }

  /** Round trip: the text an edited order starts with parses back to the
      order's own items, when each is non-empty, comma-free and trimmed. */
  lemma {:induction false} MenuItemsRoundTrip(items: seq<string>)
    requires forall k :: 0 <= k < |items| ==> IsCleanItem(items[k])
    ensures ParseMenuItems(MenuItemsText(items)) == items
  {
    if |items| == 0 {
      SplitNoSeparator("", ',');
      assert Trim("") == "";
    } else if |items| == 1 {
      TrimTrimmed(items[0]);
      ParseMenuItemsSingle(items[0]);
    } else {
      var x := items[0];
      var rest := MenuItemsText(items[1..]);
      assert MenuItemsText(items) == x + [','] + (" " + rest);
      ParseMenuItemsAppend(x, " " + rest);
      TrimTrimmed(x);
      ParseMenuItemsSingle(x);
      ParseMenuItemsPadded(" ", rest);
      MenuItemsRoundTrip(items[1..]);
      assert [x] + items[1..] == items;
    }
  }

  /** Saving an edited order without touching its items resubmits the same
      list: parsing is a normal form. */
  lemma ParseMenuItemsStable(text: string)
    ensures ParseMenuItems(MenuItemsText(ParseMenuItems(text))) == ParseMenuItems(text)
  {
    ParseMenuItemsClean(text);
    MenuItemsRoundTrip(ParseMenuItems(text));
  }

  /** One clean item, with or without a space in front, is that item. */
  lemma OneItem(w: string)
    requires IsCleanItem(w)
    ensures ParseMenuItems(w) == [w] && ParseMenuItems(" " + w) == [w]
  {
    TrimTrimmed(w);
    ParseMenuItemsSingle(w);
    ParseMenuItemsPadded(" ", w);
  }

  lemma BlankThenItem(z: string)
    requires IsCleanItem(z)
    ensures ParseMenuItems(" " + [','] + (" " + z)) == [z]
  {
    ParseMenuItemsAppend(" ", " " + z);
    ParseMenuItemsSingle(" ");
    assert Trim(" ") == "";
    OneItem(z);
  }

  lemma ItemBlankItem(y: string, z: string)
    requires IsCleanItem(y) && IsCleanItem(z)
    ensures ParseMenuItems((" " + y) + [','] + (" " + [','] + (" " + z))) == [y, z]
  {
    ParseMenuItemsAppend(" " + y, " " + [','] + (" " + z));
    BlankThenItem(z);
    OneItem(y);
  }

  /** Three items typed with a blank piece between the second and third. */
  lemma ThreeItemsWithBlank(x: string, y: string, z: string)
    requires IsCleanItem(x) && IsCleanItem(y) && IsCleanItem(z)
    ensures ParseMenuItems(x + ", " + y + ", , " + z) == [x, y, z]
  {
    var middle := (" " + y) + [','] + (" " + [','] + (" " + z));
    assert x + ", " + y + ", , " + z == x + [','] + middle;
    ParseMenuItemsAppend(x, middle);
    ItemBlankItem(y, z);
    OneItem(x);
  }

  /** The example of the order form's placeholder, with a blank piece. */
  lemma ParseMenuItemsExample()
    ensures ParseMenuItems("Burger, Fries, , Coke") == ["Burger", "Fries", "Coke"]
  {
    assert IsCleanItem("Burger") && IsCleanItem("Fries") && IsCleanItem("Coke");
    ThreeItemsWithBlank("Burger", "Fries", "Coke");
    assert "Burger" + ", " + "Fries" + ", , " + "Coke" == "Burger, Fries, , Coke";
  }

  /** A text the `required` attribute accepts can still give no items: the
      form does not ensure a non-empty list. */
  lemma BlankPiecesGiveNoItems()
    ensures ParseMenuItems(" , ") == []
  {
    ParseMenuItemsAppend(" ", " ");
    ParseMenuItemsSingle(" ");
  }
}
