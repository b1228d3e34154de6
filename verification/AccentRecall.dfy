/** The share of accented characters an OCR reading keeps (backend/scripts/ocr_eval.py, accent_recall).

    How the matcher aligns the words is not modelled, only that its opcodes tile the reference and that an `equal`
    opcode spans equal words. The accents of a word are a parameter.
  */
module AccentRecall {
  import opened Common

  type Word = string
  type Accents = Word -> multiset<char>

  datatype Tag = Equal | Replace | Delete | Insert

  datatype Opcode = Opcode(tag: Tag, i1: nat, i2: nat, j1: nat, j2: nat)

  /** Where the first `k` opcodes end in the reference. */
  function EndOf(opcodes: seq<Opcode>, k: nat): nat
    requires k <= |opcodes|
  {
    if k == 0 then 0 else opcodes[k - 1].i2
  }

  /** Opcode `k` spans words of both texts and starts where the one before it ends. */
  ghost predicate FollowsOn(opcodes: seq<Opcode>, reference: seq<Word>, hypothesis: seq<Word>, k: nat)
    requires k < |opcodes|
  {
    var o := opcodes[k];
    && o.i1 == EndOf(opcodes, k) && o.i1 <= o.i2 <= |reference| && o.j1 <= o.j2 <= |hypothesis|
    && (o.tag == Equal ==> reference[o.i1..o.i2] == hypothesis[o.j1..o.j2])
  }

  ghost predicate Tile(opcodes: seq<Opcode>, reference: seq<Word>, hypothesis: seq<Word>) {
    && (forall k :: 0 <= k < |opcodes| ==> FollowsOn(opcodes, reference, hypothesis, k))
    && EndOf(opcodes, |opcodes|) == |reference|
  }

  /** The word of the hypothesis that an opcode puts beside word `r` of the reference, if there is one. */
  function Beside(o: Opcode, hypothesis: seq<Word>, r: nat): Option<Word> {
    var j := o.j1 + r - o.i1;
    if (o.tag == Equal || o.tag == Replace) && 0 <= j < o.j2 && j < |hypothesis| then Some(hypothesis[j]) else None
  }

  function Partner(opcodes: seq<Opcode>, hypothesis: seq<Word>, r: nat): Option<Word> {
    if opcodes == [] then None
    else if opcodes[0].i1 <= r < opcodes[0].i2 then Beside(opcodes[0], hypothesis, r)
    else Partner(opcodes[1..], hypothesis, r)
  }

  /** For each word of the reference, the word of the hypothesis it is aligned with. */
  function Partners(opcodes: seq<Opcode>, reference: seq<Word>, hypothesis: seq<Word>): (partners: seq<Option<Word>>)
    ensures |partners| == |reference|
  {
    seq(|reference|, r requires 0 <= r < |reference| => Partner(opcodes, hypothesis, r))
  }

  /** The accents of a word that its partner has too. */
  function KeptOf(accents: Accents, word: Word, partner: Option<Word>): multiset<char> {
    if partner.Some? then accents(word) * accents(partner.value) else multiset{}
  }

  predicate KeepsAll(accents: Accents, word: Word, partner: Option<Word>) {
    KeptOf(accents, word, partner) == accents(word)
  }

  /** The accents in the first `n` words. */
  function Wanted(accents: Accents, reference: seq<Word>, n: nat): nat
    requires n <= |reference|
  {
    if n == 0 then 0 else Wanted(accents, reference, n - 1) + |accents(reference[n - 1])|
  }

  function Kept(accents: Accents, reference: seq<Word>, partners: seq<Option<Word>>, n: nat): nat
    requires n <= |reference| == |partners|
  {
    if n == 0 then 0
    else Kept(accents, reference, partners, n - 1) + |KeptOf(accents, reference[n - 1], partners[n - 1])|
  }

  lemma WordKeepsPart(accents: Accents, word: Word, partner: Option<Word>)
    ensures |KeptOf(accents, word, partner)| <= |accents(word)|
    ensures |KeptOf(accents, word, partner)| == |accents(word)| <==> KeepsAll(accents, word, partner)
  {
    if partner.Some? {
      var whole, other := accents(word), accents(partner.value);
      assert whole == whole * other + (whole - other);
    }
  }

  lemma {:induction false} KeptIsPart(accents: Accents, reference: seq<Word>, partners: seq<Option<Word>>, n: nat)
    requires n <= |reference| == |partners|
    ensures Kept(accents, reference, partners, n) <= Wanted(accents, reference, n)
    ensures Kept(accents, reference, partners, n) == Wanted(accents, reference, n) <==>
            forall r :: 0 <= r < n ==> KeepsAll(accents, reference[r], partners[r])
    decreases n
  {
    if n == 0 {
    } else {
      KeptIsPart(accents, reference, partners, n - 1);
      WordKeepsPart(accents, reference[n - 1], partners[n - 1]);
    }
  }

  lemma {:induction false} EndsInOrder(opcodes: seq<Opcode>, reference: seq<Word>, hypothesis: seq<Word>, j: nat,
                                       k: nat)
    requires Tile(opcodes, reference, hypothesis) && j <= k <= |opcodes|
    ensures EndOf(opcodes, j) <= EndOf(opcodes, k)
    decreases k
  {
    if j < k {
      EndsInOrder(opcodes, reference, hypothesis, j, k - 1);
      assert FollowsOn(opcodes, reference, hypothesis, k - 1);
    }
  }

  /** The opcode that spans a word aligns it; no earlier one does. */
  lemma {:induction false} PartnerIs(opcodes: seq<Opcode>, hypothesis: seq<Word>, k: nat, r: nat)
    requires k < |opcodes| && opcodes[k].i1 <= r < opcodes[k].i2
    requires forall m :: 0 <= m < k ==> opcodes[m].i2 <= r
    ensures Partner(opcodes, hypothesis, r) == Beside(opcodes[k], hypothesis, r)
    decreases k
  {
    if k == 0 {
    } else {
      assert opcodes[0].i2 <= r;
      PartnerIs(opcodes[1..], hypothesis, k - 1, r);
    }
  }

  lemma PartnerInOpcode(opcodes: seq<Opcode>, reference: seq<Word>, hypothesis: seq<Word>, k: nat, r: nat)
    requires Tile(opcodes, reference, hypothesis) && k < |opcodes| && opcodes[k].i1 <= r < opcodes[k].i2 <= |reference|
    ensures Partners(opcodes, reference, hypothesis)[r] == Beside(opcodes[k], hypothesis, r)
    ensures opcodes[k].tag == Equal ==> Beside(opcodes[k], hypothesis, r) == Some(reference[r])
  {
    var o := opcodes[k];
    assert FollowsOn(opcodes, reference, hypothesis, k);
    forall m | 0 <= m < k ensures opcodes[m].i2 <= r {
      EndsInOrder(opcodes, reference, hypothesis, m + 1, k);
    }
    PartnerIs(opcodes, hypothesis, k, r);
    if o.tag == Equal {
      assert reference[r] == reference[o.i1..o.i2][r - o.i1] == hypothesis[o.j1..o.j2][r - o.i1];
    }
  }

  lemma SameWord(accents: Accents, word: Word)
    ensures KeptOf(accents, word, Some(word)) == accents(word)
  {}

  /** Both counts have come to word `r`. */
  ghost predicate Counted(accents: Accents, reference: seq<Word>, partners: seq<Option<Word>>, r: nat, total: nat,
                          kept: nat) {
    r <= |reference| == |partners| && total == Wanted(accents, reference, r)
    && kept == Kept(accents, reference, partners, r)
  }

  method CountOpcode(accents: Accents, opcodes: seq<Opcode>, reference: seq<Word>, hypothesis: seq<Word>, k: nat,
                     total: nat, kept: nat)
      returns (total': nat, kept': nat)
    requires Tile(opcodes, reference, hypothesis) && k < |opcodes|
    requires Counted(accents, reference, Partners(opcodes, reference, hypothesis), EndOf(opcodes, k), total, kept)
    ensures Counted(accents, reference, Partners(opcodes, reference, hypothesis), EndOf(opcodes, k + 1), total', kept')
  {
    var o := opcodes[k];
    ghost var partners := Partners(opcodes, reference, hypothesis);
    assert FollowsOn(opcodes, reference, hypothesis, k);
    total', kept' := total, kept;
    for r := o.i1 to o.i2
      invariant Counted(accents, reference, partners, r, total', kept')
    {
      var wanted := accents(reference[r]);
      PartnerInOpcode(opcodes, reference, hypothesis, k, r);
      total' := total' + |wanted|;
      if o.tag == Equal {
        SameWord(accents, reference[r]);
        kept' := kept' + |wanted|;
      } else if o.tag == Replace && o.j1 + (r - o.i1) < o.j2 {
        kept' := kept' + |wanted * accents(hypothesis[o.j1 + (r - o.i1)])|;
      }
    }
  }

  /** The share that was kept; all of it if there was nothing to keep. */
  function Share(kept: nat, total: nat): real {
    if total == 0 then 1.0 else kept as real / total as real
  }

  /** `share` is `kept` out of `total`. */
  predicate IsShare(share: real, kept: nat, total: nat) {
    0.0 <= share <= 1.0 && share * total as real == kept as real && (share == 1.0 <==> kept == total)
  }

  lemma ShareMeaning(kept: nat, total: nat)
    requires kept <= total
    ensures IsShare(Share(kept, total), kept, total)
  {
    var q := Share(kept, total);
    if total != 0 {
      assert q * total as real == kept as real;
      assert (q - 1.0) * total as real == kept as real - total as real;
    }
  }

  /** accent_recall: the share of the reference's accents that the aligned words have too. It is one if and only if
      every word's partner has all of the word's accents. */
  method Recall(accents: Accents, opcodes: seq<Opcode>, reference: seq<Word>, hypothesis: seq<Word>)
      returns (recall: real)
    requires Tile(opcodes, reference, hypothesis)
    ensures IsShare(recall, Kept(accents, reference, Partners(opcodes, reference, hypothesis), |reference|),
                    Wanted(accents, reference, |reference|))
    ensures recall == 1.0 <==>
            forall r :: 0 <= r < |reference| ==>
              KeepsAll(accents, reference[r], Partners(opcodes, reference, hypothesis)[r])
  {
    var total, kept := 0, 0;
    for k := 0 to |opcodes|
      invariant Counted(accents, reference, Partners(opcodes, reference, hypothesis), EndOf(opcodes, k), total, kept)
    {
      total, kept := CountOpcode(accents, opcodes, reference, hypothesis, k, total, kept);
    }
    KeptIsPart(accents, reference, Partners(opcodes, reference, hypothesis), |reference|);
    ShareMeaning(kept, total);
    recall := if total == 0 then 1.0 else kept as real / total as real;
  }
}
