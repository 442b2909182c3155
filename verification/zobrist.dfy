/** XOR hashing of a position over an arbitrary key table with one key per
    cell and colour, maintained move by move. A machine word is represented by
    the set of its one-bits, so XOR is symmetric difference. */
module Zobrist {
  import opened Grid

  type Word = bits: set<nat> | forall b :: b in bits ==> b < 64

  function Xor(v: Word, w: Word): Word {
    (v - w) + (w - v)
  }

  lemma XorLaws(u: Word, v: Word, w: Word)
    ensures Xor(Xor(u, v), w) == Xor(u, Xor(v, w))
    ensures Xor(v, w) == Xor(w, v)
    ensures Xor(Xor(v, w), w) == v
    ensures Xor(v, {}) == v
  {
  }

  lemma XorBit(v: Word, w: Word, bit: nat)
    ensures bit in Xor(v, w) <==> (bit in v) != (bit in w)
  {
  }

  /** One pair of keys per cell: black first, then white. */
  type KeyTable = seq<(Word, Word)>

  function Key(keys: KeyTable, a: nat, s: Colour): Word
    requires a < |keys|
  {
    if s == Black then keys[a].0 else keys[a].1
  }

  function CellHash(keys: KeyTable, c: seq<Stone>, a: nat): Word
    requires a < |c| <= |keys|
  {
    if c[a] == Empty then {} else Key(keys, a, c[a])
  }

  /** XOR of the keys of the occupied cells among the first m. */
  function HashPrefix(keys: KeyTable, c: seq<Stone>, m: nat): Word
    requires m <= |c| <= |keys|
  {
    if m == 0 then {} else Xor(HashPrefix(keys, c, m - 1), CellHash(keys, c, m - 1))
  }

  function Hash(keys: KeyTable, c: seq<Stone>): Word
    requires |c| <= |keys|
  {
    HashPrefix(keys, c, |c|)
  }

  /** The cells among the first m whose stone has a bit in its key. */
  ghost function CellsWithBit(keys: KeyTable, c: seq<Stone>, b: nat, m: nat): set<nat>
    requires m <= |c| <= |keys|
  {
    set a | 0 <= a < m && ((c[a] == Black && b in keys[a].0) || (c[a] == White && b in keys[a].1))
  }

  /** A bit of the hash is set exactly if it is set in the keys of an odd number
      of stones: the first key of a cell stands for black, the second for white. */
  lemma {:induction false} HashBits(keys: KeyTable, c: seq<Stone>, b: nat)
    requires |c| <= |keys|
    ensures b in Hash(keys, c) <==> |CellsWithBit(keys, c, b, |c|)| % 2 == 1
  {
    HashPrefixBits(keys, c, b, |c|);
  }

  lemma {:induction false} HashPrefixBits(keys: KeyTable, c: seq<Stone>, b: nat, m: nat)
    requires m <= |c| <= |keys|
    ensures b in HashPrefix(keys, c, m) <==> |CellsWithBit(keys, c, b, m)| % 2 == 1
  {
    if m == 0 {
      assert CellsWithBit(keys, c, b, 0) == {};
    } else {
      hide Xor;
      HashPrefixBits(keys, c, b, m - 1);
      XorBit(HashPrefix(keys, c, m - 1), CellHash(keys, c, m - 1), b);
      var before := CellsWithBit(keys, c, b, m - 1);
      if (c[m - 1] == Black && b in keys[m - 1].0) || (c[m - 1] == White && b in keys[m - 1].1) {
        assert CellsWithBit(keys, c, b, m) == before + {m - 1};
      } else {
        assert CellsWithBit(keys, c, b, m) == before;
      }
    }
  }

  lemma {:induction false} HashPrefixAfterPlacing(keys: KeyTable, c: seq<Stone>, a: nat, s: Colour, m: nat)
    requires m <= |c| <= |keys| && a < |c| && c[a] == Empty
    ensures HashPrefix(keys, c[a := s], m) ==
            if a < m then Xor(HashPrefix(keys, c, m), Key(keys, a, s)) else HashPrefix(keys, c, m)
  {
    if m > 0 {
      HashPrefixAfterPlacing(keys, c, a, s, m - 1);
      var h, k, x := HashPrefix(keys, c, m - 1), Key(keys, a, s), CellHash(keys, c, m - 1);
      XorLaws(h, x, k);
      XorLaws(h, k, x);
      XorLaws(h, k, {});
    }
  }

  /** Placing a stone XORs exactly its key into the hash, and XORing the key
      again takes the stone away. */
  lemma {:induction false} HashAfterPlacing(keys: KeyTable, c: seq<Stone>, a: nat, s: Colour)
    requires |c| <= |keys| && a < |c| && c[a] == Empty
    ensures Hash(keys, c[a := s]) == Xor(Hash(keys, c), Key(keys, a, s))
    ensures Hash(keys, c) == Xor(Hash(keys, c[a := s]), Key(keys, a, s))
  {
    HashPrefixAfterPlacing(keys, c, a, s, |c|);
    XorLaws({}, Hash(keys, c), Key(keys, a, s));
  }

  /** No two different positions of the collection share a hash. */
  ghost predicate InjectiveOn(keys: KeyTable, positions: set<seq<Stone>>)
    requires forall c :: c in positions ==> |c| <= |keys|
  {
    forall c, c' :: c in positions && c' in positions && Hash(keys, c) == Hash(keys, c') ==> c == c'
  }
}
