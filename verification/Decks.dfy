/** Decks of 256 cards: the permutations that both stream ciphers of the server shuffle. */
module Decks {
  import opened Bytes

  type Deck = cards: seq<byte> | |cards| == 256 witness seq(256, _ => 0)

  function Ordered(): Deck {
    seq(256, i requires 0 <= i < 256 => i)
  }

  function Reversed(): Deck {
    seq(256, i requires 0 <= i < 256 => 255 - i)
  }

  /** The deck is a permutation of the bytes 0..255. */
  ghost predicate Shuffled(cards: Deck) {
    multiset(cards) == multiset(Ordered())
  }

  function At(cards: Deck, i: byte): byte {
    cards[i]
  }

  function Swap(cards: Deck, i: int, j: int): Deck
    requires 0 <= i < 256 && 0 <= j < 256
  {
    cards[i := cards[j]][j := cards[i]]
  }

  lemma SwapShuffled(cards: Deck, i: int, j: int)
    requires 0 <= i < 256 && 0 <= j < 256 && Shuffled(cards)
    ensures Shuffled(Swap(cards, i, j))
  {
  }

  lemma OccursTwice<T>(s: seq<T>, i: nat, j: nat)
    requires i < j < |s| && s[i] == s[j]
    ensures multiset(s)[s[i]] >= 2
  {
    assert s == s[..j] + s[j..];
    assert s[i] in s[..j] && s[i] in s[j..];
  }

  lemma {:induction false} OccursOnce<T>(s: seq<T>, x: T)
    requires forall i, j :: 0 <= i < j < |s| ==> s[i] != s[j]
    ensures multiset(s)[x] <= 1
  {
    if s != [] {
      OccursOnce(s[1..], x);
      assert s == [s[0]] + s[1..];
      assert s[0] !in multiset(s[1..]);
    }
  }

  lemma SamePermutation<T>(a: seq<T>, b: seq<T>)
    requires multiset(a) == multiset(b)
    requires forall i, j :: 0 <= i < j < |a| ==> a[i] != a[j]
    ensures forall i, j :: 0 <= i < j < |b| ==> b[i] != b[j]
    ensures forall x :: x in a ==> x in b
  {
    forall i, j | 0 <= i < j < |b| ensures b[i] != b[j] {
      OccursOnce(a, b[i]);
      if b[i] == b[j] {
        OccursTwice(b, i, j);
      }
    }
    forall x | x in a ensures x in b {
      assert x in multiset(a);
    }
  }

  lemma OrderedDistinct()
    ensures forall i, j :: 0 <= i < j < 256 ==> Ordered()[i] != Ordered()[j]
  {

  }

  /** In a shuffled deck no card is missing and no card occurs at two positions. */
  lemma ShuffledIsBijection(cards: Deck, card: byte)
    requires Shuffled(cards)
    ensures card in cards
    ensures forall i, j :: 0 <= i < j < 256 ==> cards[i] != cards[j]
  {
    OrderedDistinct();
    assert Ordered()[card] == card;
    hide Ordered;
    SamePermutation(Ordered(), cards);
  }

  lemma {:induction false} ReversePermutes<T>(a: seq<T>, b: seq<T>)
    requires |a| == |b| && forall i :: 0 <= i < |a| ==> b[i] == a[|a| - 1 - i]
    ensures multiset(a) == multiset(b)
  {
    if a != [] {
      ReversePermutes(a[1..], b[..|b| - 1]);
      assert a == [a[0]] + a[1..];
      assert b == b[..|b| - 1] + [a[0]];
    }
  }
}
