/** Known answers of XXH64 with seed 0: no input, one byte, eight bytes, and a sentence with a stripe, a four and single
    bytes behind it. */
module ChecksumVectors {
  import opened Lines
  import opened Checksum64

  /** The eight bytes `abcdefgh`, and the sentence "Nobody inspects the spammish repetition". */
  const EIGHT: seq<Byte> := [97, 98, 99, 100, 101, 102, 103, 104]
  const SENTENCE: seq<Byte> := [78, 111, 98, 111, 100, 121, 32, 105] + [110, 115, 112, 101, 99, 116, 115, 32] + [116, 104, 101, 32, 115, 112, 97, 109]
                               + [109, 105, 115, 104, 32, 114, 101, 112] + [101, 116, 105, 116, 105, 111, 110]

  lemma ReadEight(s: seq<Byte>, at: nat)
    requires at + 8 <= |s|
    ensures Read(XXH, s, at, 8)
         == Prepend(s[at], Prepend(s[at + 1], Prepend(s[at + 2], Prepend(s[at + 3],
              Prepend(s[at + 4], Prepend(s[at + 5], Prepend(s[at + 6], Prepend(s[at + 7], 0))))))))
  {
    hide Prepend;
    assert Read(XXH, s, at + 4, 4) == Prepend(s[at + 4], Prepend(s[at + 5], Prepend(s[at + 6], Prepend(s[at + 7], 0)))) by {
      ReadFour(s, at + 4);
    }
    assert Read(XXH, s, at + 2, 6) == Prepend(s[at + 2], Prepend(s[at + 3], Read(XXH, s, at + 4, 4)));
    assert Read(XXH, s, at, 8) == Prepend(s[at], Prepend(s[at + 1], Read(XXH, s, at + 2, 6)));
  }

  lemma ReadFour(s: seq<Byte>, at: nat)
    requires at + 4 <= |s|
    ensures Read(XXH, s, at, 4) == Prepend(s[at], Prepend(s[at + 1], Prepend(s[at + 2], Prepend(s[at + 3], 0))))
  {
    hide Prepend;
    assert Read(XXH, s, at + 2, 2) == Prepend(s[at + 2], Prepend(s[at + 3], Read(XXH, s, at + 4, 0)));
    assert Read(XXH, s, at, 4) == Prepend(s[at], Prepend(s[at + 1], Read(XXH, s, at + 2, 2)));
  }

  lemma Word0()
    ensures Prepend(78, Prepend(111, Prepend(98, Prepend(111, Prepend(100, Prepend(121, Prepend(32, Prepend(105, 0)))))))) == 0x692079646F626F4E
  {
    assert Prepend(105, 0x0) == 0x69 && Prepend(32, 0x69) == 0x6920 && Prepend(121, 0x6920) == 0x692079 && Prepend(100, 0x692079) == 0x69207964;
    assert Prepend(111, 0x69207964) == 0x692079646F && Prepend(98, 0x692079646F) == 0x692079646F62 && Prepend(111, 0x692079646F62) == 0x692079646F626F;
  }

  lemma Word1()
    ensures Prepend(110, Prepend(115, Prepend(112, Prepend(101, Prepend(99, Prepend(116, Prepend(115, Prepend(32, 0)))))))) == 0x207374636570736E
  {
    assert Prepend(32, 0x0) == 0x20 && Prepend(115, 0x20) == 0x2073 && Prepend(116, 0x2073) == 0x207374 && Prepend(99, 0x207374) == 0x20737463;
    assert Prepend(101, 0x20737463) == 0x2073746365 && Prepend(112, 0x2073746365) == 0x207374636570 && Prepend(115, 0x207374636570) == 0x20737463657073;
  }

  lemma Word2()
    ensures Prepend(116, Prepend(104, Prepend(101, Prepend(32, Prepend(115, Prepend(112, Prepend(97, Prepend(109, 0)))))))) == 0x6D61707320656874
  {
    assert Prepend(109, 0x0) == 0x6D && Prepend(97, 0x6D) == 0x6D61 && Prepend(112, 0x6D61) == 0x6D6170 && Prepend(115, 0x6D6170) == 0x6D617073;
    assert Prepend(32, 0x6D617073) == 0x6D61707320 && Prepend(101, 0x6D61707320) == 0x6D6170732065 && Prepend(104, 0x6D6170732065) == 0x6D617073206568;
  }

  lemma Word3()
    ensures Prepend(109, Prepend(105, Prepend(115, Prepend(104, Prepend(32, Prepend(114, Prepend(101, Prepend(112, 0)))))))) == 0x706572206873696D
  {
    assert Prepend(112, 0x0) == 0x70 && Prepend(101, 0x70) == 0x7065 && Prepend(114, 0x7065) == 0x706572 && Prepend(32, 0x706572) == 0x70657220;
    assert Prepend(104, 0x70657220) == 0x7065722068 && Prepend(115, 0x7065722068) == 0x706572206873 && Prepend(105, 0x706572206873) == 0x70657220687369;
  }

  lemma Word4()
    ensures Prepend(101, Prepend(116, Prepend(105, Prepend(116, 0)))) == 0x74697465
  {
    assert Prepend(116, 0x0) == 0x74 && Prepend(105, 0x74) == 0x7469 && Prepend(116, 0x7469) == 0x746974;
  }

  lemma WordOfEight()
    ensures Prepend(97, Prepend(98, Prepend(99, Prepend(100, Prepend(101, Prepend(102, Prepend(103, Prepend(104, 0)))))))) == 0x6867666564636261
  {
    assert Prepend(104, 0x0) == 0x68 && Prepend(103, 0x68) == 0x6867 && Prepend(102, 0x6867) == 0x686766 && Prepend(101, 0x686766) == 0x68676665;
    assert Prepend(100, 0x68676665) == 0x6867666564 && Prepend(99, 0x6867666564) == 0x686766656463 && Prepend(98, 0x686766656463) == 0x68676665646362;
  }

  // ---- The steps on these inputs -----------------------------------------------------------------------

  lemma SentenceLanes()
    ensures Round(PRIME64_1 + PRIME64_2, 0x692079646F626F4E) == 0x37245127A4067E4B
    ensures Round(PRIME64_2, 0x207374636570736E) == 0x1B302B0A818F92CF
    ensures Round(0, 0x6D61707320656874) == 0xCD62D843D0580FCA
    ensures Round(0 - PRIME64_1, 0x706572206873696D) == 0x1C16E43EF2142A4A
  {
  }

  lemma SentenceTurned()
    ensures Rotl(0x37245127A4067E4B, 1) == 0x6E48A24F480CFC96
    ensures Rotl(0x1B302B0A818F92CF, 7) == 0x98158540C7C9678D
    ensures Rotl(0xCD62D843D0580FCA, 12) == 0x2D843D0580FCACD6
    ensures Rotl(0x1C16E43EF2142A4A, 18) == 0x90FBC850A928705B
  {
  }

  lemma SentenceAdded()
    ensures Plus(0x6E48A24F480CFC96, 0x98158540C7C9678D) == 0x065E27900FD66423
    ensures Plus(0x065E27900FD66423, 0x2D843D0580FCACD6) == 0x33E2649590D310F9
    ensures Plus(0x33E2649590D310F9, 0x90FBC850A928705B) == 0xC4DE2CE639FB8154
  {
  }

  lemma SentenceSum()
    ensures Plus(Plus(Plus(Rotl(0x37245127A4067E4B, 1), Rotl(0x1B302B0A818F92CF, 7)), Rotl(0xCD62D843D0580FCA, 12)),
                 Rotl(0x1C16E43EF2142A4A, 18)) == 0xC4DE2CE639FB8154
  {
    hide Plus, Rotl;
    SentenceTurned();
    SentenceAdded();
  }

  lemma SentenceMerged()
    ensures MergeAccumulator(0xC4DE2CE639FB8154, 0x37245127A4067E4B) == 0x30D40DDD00AEA144
    ensures MergeAccumulator(0x30D40DDD00AEA144, 0x1B302B0A818F92CF) == 0xE5A1F095BF498698
    ensures MergeAccumulator(0xE5A1F095BF498698, 0xCD62D843D0580FCA) == 0xF9CEE721E748096D
    ensures MergeAccumulator(0xF9CEE721E748096D, 0x1C16E43EF2142A4A) == 0x84F22C421A11A8B5
  {
  }

  lemma ShortLength(length: nat)
    requires length < 64
    ensures LengthWord(length) == length as Word
  {
  }

  lemma SentenceLength()
    ensures Plus(0x84F22C421A11A8B5, LengthWord(39)) == 0x84F22C421A11A8DC
  {
    hide LengthWord;
    ShortLength(39);
  }

  lemma SentenceFour()
    ensures MixFour(0x84F22C421A11A8DC, 0x74697465) == 0x9FCA0F5D0AAA110F
  {
    var lane: Word := 0x74697465;
    assert lane * PRIME64_1 == 0xE9863933EB2B1343;
    assert Rotl(0x84F22C421A11A8DC ^ 0xE9863933EB2B1343, 23) == 0xB8F89D5DCFB6BA0A;
  }

  lemma SentenceOnes()
    ensures MixOne(0x9FCA0F5D0AAA110F, 105) == 0x769671546F21BA14
    ensures MixOne(0x769671546F21BA14, 111) == 0xEAE9B643C5F94E52
    ensures MixOne(0xEAE9B643C5F94E52, 110) == 0x1D0A47483B37CC24
  {
  }

  lemma SentenceEnd()
    ensures Avalanche(0x1D0A47483B37CC24) == 0xFBCEA83C8A378BF1
  {
  }

  lemma OneByteLength()
    ensures Plus(PRIME64_5, LengthWord(1)) == 0x27D4EB2F165667C6
  {
    hide LengthWord;
    ShortLength(1);
  }

  lemma OneByteSteps()
    ensures MixOne(0x27D4EB2F165667C6, 97) == 0xB86597E419D4D215
    ensures Avalanche(0xB86597E419D4D215) == 0xD24EC4F1A98C6E5B
  {
  }

  lemma EightBytesLength()
    ensures Plus(PRIME64_5, LengthWord(8)) == 0x27D4EB2F165667CD
  {
    hide LengthWord;
    ShortLength(8);
  }

  lemma EightBytesSteps()
    ensures MixEight(0x27D4EB2F165667CD, 0x6867666564636261) == 0xA119981D165AD1DF
  {
    assert Round(0, 0x6867666564636261) == 0xD5829FA70A0FCC74;
    assert Rotl(0x27D4EB2F165667CD ^ 0xD5829FA70A0FCC74, 27) == 0x40E2CD5DCF92B3A4;
  }

  lemma EightBytesEnd()
    ensures Avalanche(0xA119981D165AD1DF) == 0x3AD351775B4634B7
  {
  }

  // ---- The answers -----------------------------------------------------------------------------------

  lemma NoInput()
    ensures Xxh64([]) == 0xEF46DB3751D8E999
  {
  }

  lemma OneByte()
    ensures Xxh64([97]) == 0xD24EC4F1A98C6E5B
  {
    hide Plus, LengthWord, MixOne, MixFour, MixEight, Avalanche;
    OneByteLength();
    OneByteSteps();
    assert FullLength([97]) == 0 && Remaining(XXH, 0xB86597E419D4D215, [97], 1) == 0xB86597E419D4D215;
  }

  lemma EightBytes()
    ensures Xxh64(EIGHT) == 0x3AD351775B4634B7
  {
    hide Plus, LengthWord, MixOne, MixFour, MixEight, Avalanche, Prepend, Read;
    EightBytesLength();
    EightBytesSteps();
    EightBytesEnd();
    ReadEight(EIGHT, 0);
    WordOfEight();
    assert FullLength(EIGHT) == 0 && Remaining(XXH, 0xA119981D165AD1DF, EIGHT, 8) == 0xA119981D165AD1DF;
  }

  lemma SentenceWord0()
    ensures Read(XXH, SENTENCE, 0, 8) == 0x692079646F626F4E
  {
    hide Prepend, Read;
    ReadEight(SENTENCE, 0);
    Word0();
  }

  lemma SentenceWord1()
    ensures Read(XXH, SENTENCE, 8, 8) == 0x207374636570736E
  {
    hide Prepend, Read;
    ReadEight(SENTENCE, 8);
    Word1();
  }

  lemma SentenceWord2()
    ensures Read(XXH, SENTENCE, 16, 8) == 0x6D61707320656874
  {
    hide Prepend, Read;
    ReadEight(SENTENCE, 16);
    Word2();
  }

  lemma SentenceWord3()
    ensures Read(XXH, SENTENCE, 24, 8) == 0x706572206873696D
  {
    hide Prepend, Read;
    ReadEight(SENTENCE, 24);
    Word3();
  }

  lemma SentenceWord4()
    ensures Read(XXH, SENTENCE, 32, 4) == 0x74697465
  {
    hide Prepend, Read;
    ReadFour(SENTENCE, 32);
    Word4();
  }

  lemma SentenceStripe()
    ensures Stripe(XXH, SEEDED, SENTENCE, 0)
         == Lanes(0x37245127A4067E4B, 0x1B302B0A818F92CF, 0xCD62D843D0580FCA, 0x1C16E43EF2142A4A)
  {
    hide Read, Round;
    SentenceWord0();
    SentenceWord1();
    SentenceWord2();
    SentenceWord3();
    SentenceLanes();
  }

  lemma RemainingOne(acc: Word, s: seq<Byte>, at: nat)
    requires at < |s| < at + 4
    ensures Remaining(XXH, acc, s, at) == Remaining(XXH, MixOne(acc, s[at]), s, at + 1)
  {
    hide MixOne;
  }

  lemma RemainingFour(acc: Word, s: seq<Byte>, at: nat)
    requires at + 4 <= |s| < at + 8
    ensures Remaining(XXH, acc, s, at) == Remaining(XXH, MixFour(acc, Read(XXH, s, at, 4)), s, at + 4)
  {
    hide MixFour, Read;
  }

  lemma SentenceRest()
    ensures Remaining(XXH, 0x84F22C421A11A8DC, SENTENCE, 32) == 0x1D0A47483B37CC24
  {
    hide Read, MixOne, MixFour;
    SentenceWord4();
    SentenceFour();
    SentenceOnes();
    RemainingFour(0x84F22C421A11A8DC, SENTENCE, 32);
    RemainingOne(0x9FCA0F5D0AAA110F, SENTENCE, 36);
    RemainingOne(0x769671546F21BA14, SENTENCE, 37);
    RemainingOne(0xEAE9B643C5F94E52, SENTENCE, 38);
    hide Remaining;
    AllRead(0x1D0A47483B37CC24, SENTENCE);
  }

  lemma AllRead(acc: Word, s: seq<Byte>)
    ensures Remaining(XXH, acc, s, |s|) == acc
  {
  }

  lemma Sentence()
    ensures Xxh64(SENTENCE) == 0xFBCEA83C8A378BF1
  {
    hide Stripe, SEEDED, Remaining, Plus, Rotl, MergeAccumulator, LengthWord, Avalanche;
    SentenceStripe();
    SentenceSum();
    SentenceMerged();
    SentenceLength();
    SentenceEnd();
    SentenceRest();
    assert Stripes(XXH, Stripe(XXH, SEEDED, SENTENCE, 0), SENTENCE, 32) == Stripe(XXH, SEEDED, SENTENCE, 0);
    assert FullLength(SENTENCE) == 32;
  }
}
