/** Trees laid out in an array, with two or four children to a node. */
module Trees {
  function QuadChild(i: nat, j: nat): nat { 4 * i + j + 1 }
  function QuadParent(i: nat): nat
    requires i > 0
  {
    (i - 1) / 4
  }
  function QuadSlot(i: nat): nat
    requires i > 0
  {
    (i - 1) % 4
  }

  lemma QuadTies(i: nat, j: nat)
    ensures i > 0 ==> QuadChild(QuadParent(i), QuadSlot(i)) == i && QuadParent(i) < i && QuadSlot(i) < 4
    ensures j < 4 ==> QuadParent(QuadChild(i, j)) == i && QuadSlot(QuadChild(i, j)) == j
  {
  }

  function BinaryChild(i: nat, c: nat): nat { 2 * i + c + 1 }
  function BinaryParent(i: nat): nat
    requires i > 0
  {
    (i - 1) / 2
  }
  function BinarySlot(i: nat): nat
    requires i > 0
  {
    (i - 1) % 2
  }

  lemma BinaryTies(i: nat, c: nat)
    ensures i > 0 ==> BinaryChild(BinaryParent(i), BinarySlot(i)) == i && BinaryParent(i) < i && BinarySlot(i) < 2
    ensures c < 2 ==> BinaryParent(BinaryChild(i, c)) == i && BinarySlot(BinaryChild(i, c)) == c
  {
  }

  lemma BinaryChildIff(i: nat, c: nat, k: nat)
    requires c < 2
    ensures k == BinaryChild(i, c) <==> k > 0 && BinaryParent(k) == i && BinarySlot(k) == c
  {
  }
}
