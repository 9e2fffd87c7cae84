/**
 * The rooms section of the client home page: one component per room card,
 * and `selectRoom`, which clicks "Book now" on the first card whose title is
 * the requested name.
 */
module Rooms {
  import opened Wrappers
  import opened JsText
  import Search

  /** A room card, seen through the text of its `.card-title` (`None` when null). */
  datatype RoomCard = RoomCard(title: Option<string>)

  /** A room component wraps the `card`-th `.room-card` of the section. */
  datatype RoomComponent = RoomComponent(card: nat)

  /** `RoomComponent.getName`: the title text, or "" when it has none. */
  function GetName(c: RoomCard): string
  {
    TextOr(c.title, "")
  }

  function CardNames(cards: seq<RoomCard>): (names: seq<string>)
    ensures |names| == |cards| && forall i :: 0 <= i < |cards| ==> names[i] == GetName(cards[i])
  {
    seq(|cards|, i requires 0 <= i < |cards| => GetName(cards[i]))
  }

  /** `getRoomComponents`: one component per card, the i-th wrapping card i. */
  function GetRoomComponents(cards: seq<RoomCard>): (rooms: seq<RoomComponent>)
    ensures |rooms| == |cards|
    ensures forall i :: 0 <= i < |rooms| ==> rooms[i].card == i
  {
    seq(|cards|, i requires 0 <= i => RoomComponent(i))
  }

  /** What `selectRoom` does to one card: read its name, or click its "Book now" link. */
  datatype CardAction = ReadName(card: nat) | ClickBook(card: nat)

  /** Reading the names of the first `n` cards, in order. */
  function ReadNames(n: nat): (actions: seq<CardAction>)
    ensures |actions| == n && forall i :: 0 <= i < n ==> actions[i] == ReadName(i)
  {
    seq(n, i requires 0 <= i => ReadName(i))
  }

  /**
   * Reads card names in order until one equals `roomName` exactly, clicks that
   * card's "Book now" and stops; when none matches, it reads every name and
   * clicks nothing.
   */
  method SelectRoom(cards: seq<RoomCard>, roomName: string) returns (actions: seq<CardAction>)
    ensures match Search.FirstIndex(CardNames(cards), roomName)
      case Some(k) => actions == ReadNames(k + 1) + [ClickBook(k)]
      case None => actions == ReadNames(|cards|)
  {
    var rooms := GetRoomComponents(cards);
    actions := [];
    var i := 0;
    while i < |rooms|
      invariant 0 <= i <= |rooms|
      invariant actions == ReadNames(i)
      invariant roomName !in CardNames(cards)[..i]
    {
      var name := GetName(cards[rooms[i].card]);
      actions := actions + [ReadName(i)];
      if name == roomName {
        actions := actions + [ClickBook(i)];
        break;
      }
      assert CardNames(cards)[..i + 1] == CardNames(cards)[..i] + [name];
      i := i + 1;
    }
    assert i == |cards| ==> CardNames(cards)[..i] == CardNames(cards);
  }

  /**
   * In the actions of `selectRoom` at most one card is clicked, it is clicked
   * last, and it is a card titled exactly `roomName`; every card before it is
   * only read.
   */
  lemma SelectionClicksAtMostOnce(cards: seq<RoomCard>, roomName: string, actions: seq<CardAction>)
    requires match Search.FirstIndex(CardNames(cards), roomName)
      case Some(k) => actions == ReadNames(k + 1) + [ClickBook(k)]
      case None => actions == ReadNames(|cards|)
    ensures forall i :: 0 <= i < |actions| - 1 ==> actions[i] == ReadName(i)
    ensures forall i :: 0 <= i < |actions| && actions[i].ClickBook? ==>
      i == |actions| - 1 && actions[i].card < |cards| && GetName(cards[actions[i].card]) == roomName
    ensures (exists i :: 0 <= i < |actions| && actions[i].ClickBook?) <==>
      exists j :: 0 <= j < |cards| && GetName(cards[j]) == roomName
  {
    var names := CardNames(cards);
    match Search.FirstIndex(names, roomName)
    case Some(k) =>
      assert actions[k + 1].ClickBook?;
    case None =>
      assert forall j :: 0 <= j < |cards| ==> names[j] != roomName;
  }

  /**
   * A card without title text is named "", so selecting "" finds a card no
   * later than any untitled one.
   */
  lemma UntitledCardMatchesEmptyName(cards: seq<RoomCard>, j: nat)
    requires j < |cards| && cards[j].title == None
    ensures match Search.FirstIndex(CardNames(cards), "")
      case Some(k) => k <= j && GetName(cards[k]) == ""
      case None => false
  {
    assert CardNames(cards)[j] == "";
  }
}
