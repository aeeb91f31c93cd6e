/**
 * Cards and the deck of backend/models/poker_game.py.
 *
 * The source keeps every card as a string "<rank> of <suit>" and parses it back
 * into a (rank, suit) pair when it evaluates a hand. Here a card is a value
 * `Card(rank, suit)`; `CardName` is its text form and `ParseCard` the parse done
 * by `get_best_hand`, and `ParseCardName` proves that the parse inverts the text form.
 */
module Cards {
  import opened Util

  datatype Suit = Hearts | Diamonds | Clubs | Spades

  /** The suit order used by create_deck and by both suit scans of get_best_hand. */
  const SUITS: seq<Suit> := [Hearts, Diamonds, Clubs, Spades]

  /** Numeric ranks: 2..10, Jack = 11, Queen = 12, King = 13, Ace = 14 (ace high only). */
  type Rank = r: int | 2 <= r <= 14 witness 2

  datatype Card = Card(rank: Rank, suit: Suit)

  function SuitName(s: Suit): string {
    match s
    case Hearts => "Hearts"
    case Diamonds => "Diamonds"
    case Clubs => "Clubs"
    case Spades => "Spades"
  }

  function RankName(r: Rank): string {
    if r == 14 then "Ace"
    else if r == 13 then "King"
    else if r == 12 then "Queen"
    else if r == 11 then "Jack"
    else if r == 10 then "10"
    else [(r + '0' as int) as char]
  }

  /** A card's text as create_deck writes it; str.partition on " of " splits it back into its two names. */
  function CardName(c: Card): (r: string)
    ensures Partition(r, " of ") == (RankName(c.rank), " of ", SuitName(c.suit))
  {
    var name, suit := RankName(c.rank), SuitName(c.suit);
    FirstSeparatorAfterRank(c.rank, suit, 0);
    assert (name + " of " + suit)[..|name|] == name;
    assert (name + " of " + suit)[|name| + 4..] == suit;
    name + " of " + suit
  }

  function ParseSuit(s: string): (r: Option<Suit>)
    ensures r.Some? ==> SuitName(r.value) == s
  {
    if s == "Hearts" then Some(Hearts)
    else if s == "Diamonds" then Some(Diamonds)
    else if s == "Clubs" then Some(Clubs)
    else if s == "Spades" then Some(Spades)
    else None
  }

  /** The face names become 11..14; any other rank text goes through int(). */
  function ParseRank(s: string): (r: Option<Rank>)
    ensures r.Some? ==> RankName(r.value) == s
  {
    if s == "Jack" then Some(11)
    else if s == "Queen" then Some(12)
    else if s == "King" then Some(13)
    else if s == "Ace" then Some(14)
    else if s == "10" then Some(10)
    else if |s| == 1 && '2' <= s[0] <= '9' then Some(s[0] as int - '0' as int)
    else None
  }

  /** `sep` occurs in `s` starting at index `j`. */
  predicate OccursAt(s: string, sep: string, j: nat) {
    j + |sep| <= |s| && s[j..j + |sep|] == sep
  }

  /** First index at or after `from` where `sep` occurs in `s`. */
  function FindFrom(s: string, sep: string, from: nat): (r: Option<nat>)
    ensures r.Some? ==> from <= r.value && OccursAt(s, sep, r.value)
    ensures r.Some? ==> forall j :: from <= j < r.value ==> !OccursAt(s, sep, j)
    ensures r.None? ==> forall j :: from <= j ==> !OccursAt(s, sep, j)
    decreases |s| - from
  {
    if from + |sep| > |s| then None
    else if s[from..from + |sep|] == sep then Some(from)
    else FindFrom(s, sep, from + 1)
  }

  /** Python's str.partition: the text before the first `sep`, the separator, the text after it. */
  function Partition(s: string, sep: string): (r: (string, string, string))
    ensures r.0 + r.1 + r.2 == s
    ensures r.1 == sep ==> OccursAt(s, sep, |r.0|) && forall j :: 0 <= j < |r.0| ==> !OccursAt(s, sep, j)
    ensures r.1 != sep ==> r == (s, "", "") && forall j :: !OccursAt(s, sep, j)
  {
    match FindFrom(s, sep, 0)
    case Some(i) => (s[..i], sep, s[i + |sep|..])
    case None => (s, "", "")
  }

  /**
   * `rank, _, suit = card.partition(' of ')` followed by the rank conversion of get_best_hand.
   * Only the names of the 52 cards parse: a text without " of " or with a suit part that is
   * not one of the four suit names gives None, where Python keeps the rank with that suit text.
   */
  function ParseCard(s: string): (r: Option<Card>)
    ensures r.Some? ==> CardName(r.value) == s
  {
    var (rankText, sep, suitText) := Partition(s, " of ");
    if sep != " of " then None
    else
      match (ParseRank(rankText), ParseSuit(suitText))
      case (Some(rank), Some(suit)) => Some(Card(rank, suit))
      case _ => None
  }

  /** A rank name never contains a blank, so " of " first occurs right after it. */
  lemma {:induction false} FirstSeparatorAfterRank(r: Rank, tail: string, from: nat)
    requires from <= |RankName(r)|
    ensures FindFrom(RankName(r) + " of " + tail, " of ", from) == Some(|RankName(r)|)
    decreases |RankName(r)| - from
  {
    var name := RankName(r);
    var s := name + " of " + tail;
    if from < |name| {
      assert s[from] == name[from] != ' ';
      assert from + 4 <= |s| ==> s[from..from + 4][0] == s[from];
      FirstSeparatorAfterRank(r, tail, from + 1);
    } else {
      assert s[from..from + 4] == " of ";
    }
  }

  /** Parsing the text form of a card gives the card back. */
  lemma ParseCardName(c: Card)
    ensures ParseCard(CardName(c)) == Some(c)
  {
    var name, suit := RankName(c.rank), SuitName(c.suit);
    assert Partition(CardName(c), " of ") == (name, " of ", suit);
    assert ParseRank(name) == Some(c.rank);
    assert ParseSuit(suit) == Some(c.suit);
  }

  /** The thirteen cards of one suit, ranks ascending (the inner comprehension of create_deck). */
  function SuitCards(s: Suit): (r: seq<Card>)
    ensures |r| == 13
    ensures forall k :: 0 <= k < 13 ==> r[k] == Card(k + 2, s)
  {
    seq(13, k requires 0 <= k < 13 => Card(k + 2, s))
  }

  /** create_deck: suits outer (Hearts, Diamonds, Clubs, Spades), ranks inner (2 .. Ace). */
  function CreateDeck(): (d: seq<Card>)
    ensures |d| == 52
    ensures forall c :: c in d
    ensures NoDuplicates(d)
  {
    var d := SuitCards(Hearts) + SuitCards(Diamonds) + SuitCards(Clubs) + SuitCards(Spades);
    forall c: Card ensures c in d {
      var base := match c.suit case Hearts => 0 case Diamonds => 13 case Clubs => 26 case Spades => 39;
      assert d[base + c.rank - 2] == c;
    }
    forall i, j | 0 <= i < j < 52 ensures d[i] != d[j] {
      assert d[i].suit == SUITS[i / 13] && d[i].rank == i % 13 + 2;
      assert d[j].suit == SUITS[j / 13] && d[j].rank == j % 13 + 2;
    }
    d
  }

  /** What random.shuffle may return for a fresh deck: any permutation of it. */
  ghost predicate IsShuffle(d: seq<Card>) {
    multiset(d) == multiset(CreateDeck())
  }

  /** A shuffled deck still holds every card exactly once. */
  lemma {:induction false} ShuffleHoldsEachCardOnce(d: seq<Card>)
    requires IsShuffle(d)
    ensures |d| == 52
    ensures forall c :: c in d
    ensures NoDuplicates(d)
  {
    var full := CreateDeck();
    assert |d| == |multiset(d)| == |multiset(full)| == 52;
    forall c: Card ensures c in d {
      assert c in full;
      assert c in multiset(full);
    }
    forall i, j | 0 <= i < j < |d| ensures d[i] != d[j] {
      if d[i] == d[j] {
        TwoCopies(d, i, j);
        CountOne(full, d[i]);
        assert false;
      }
    }
  }

  /** A card of a duplicate-free sequence has multiplicity one. */
  lemma {:induction false} CountOne(s: seq<Card>, c: Card)
    requires NoDuplicates(s) && c in s
    ensures multiset(s)[c] == 1
  {
    var k :| 0 <= k < |s| && s[k] == c;
    assert s == s[..k] + [c] + s[k + 1..];
    assert c !in s[..k] && c !in s[k + 1..];
    assert multiset(s[..k])[c] == 0 && multiset(s[k + 1..])[c] == 0;
  }

  /** Two equal entries give multiplicity at least two. */
  lemma TwoCopies(s: seq<Card>, i: nat, j: nat)
    requires i < j < |s| && s[i] == s[j]
    ensures multiset(s)[s[i]] >= 2
  {
    assert s == s[..i] + [s[i]] + s[i + 1..j] + [s[j]] + s[j + 1..];
  }
}
