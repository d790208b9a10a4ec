/** One sector descrambled and one block decrypted, worked out byte by byte (dvdcss_unscramble and
    DecryptKey in src/css.c). */
module KnownValues {
  import opened Combiner
  import opened Sector
  import opened Mangling
  import opened DiscKey

  const KEY := Key(0x1d, 0x2c, 0x3b, 0x4a, 0x59)
  const BLOCK := Key(0x9e, 0x37, 0x79, 0xb9, 0x7f)

  // ---------------------------------------------------------------------------------------
  // A sector
  // ---------------------------------------------------------------------------------------

  // Zeros, but for the scrambling bits, the five seed bytes and the first five scrambled bytes
  const SECTOR: SectorBytes :=
    seq(BLOCK_SIZE, i => 0)[0x14 := 0x10][0x54 := 0x9e][0x55 := 0x37][0x56 := 0x79][0x57 := 0xb9][0x58 := 0x7f]
                           [0x80 := 0xc3][0x81 := 0x5a][0x82 := 0x96][0x83 := 0x0f][0x84 := 0xe1]

  lemma SectorIsKnown()
    ensures var u := Unscrambled(KEY, SECTOR);
            u[0x80] == 0x27 && u[0x81] == 0x6d && u[0x82] == 0x51 && u[0x83] == 0x40 && u[0x84] == 0x62
  {
    hide At, Unscrambled, SECTOR, Decode;
    SectorBytesAre();
    UnscrambledBytes(KEY, SECTOR);
    FiveBytesAre(Seeded(KEY.Xor(BLOCK)), 0, 0xff);
    PadIsKnown();
    DecodedAre();
  }

  lemma SectorBytesAre()
    ensures IsScrambled(SECTOR) && SeedOf(SECTOR) == BLOCK
    ensures SECTOR[0x80] == 0xc3 && SECTOR[0x81] == 0x5a && SECTOR[0x82] == 0x96 && SECTOR[0x83] == 0x0f
    ensures SECTOR[0x84] == 0xe1
  {
  }

  lemma PadIsKnown()
    ensures FiveBytes(Seeded(KEY.Xor(BLOCK)), 0, 0xff) == Key(0xa3, 0xb9, 0xba, 0x3b, 0x1b)
  {
  }

  lemma DecodedAre()
    ensures Decode(0xc3, 0xa3) == 0x27 && Decode(0x5a, 0xb9) == 0x6d && Decode(0x96, 0xba) == 0x51
    ensures Decode(0x0f, 0x3b) == 0x40 && Decode(0xe1, 0x1b) == 0x62
  {
  }

  // ---------------------------------------------------------------------------------------
  // A block decrypted as a disc key and as a title key
  // ---------------------------------------------------------------------------------------

  lemma DiscKeyIsKnown()
    ensures Decrypted(0, KEY, BLOCK) == Key(0xb5, 0x56, 0x33, 0xc1, 0x3a)
  {
    hide At, FiveBytes, FirstPass, SecondPass;
    FiveBytesAre(Seeded(KEY), 0, 0);
    DiscStream();
    DiscPasses();
  }
  lemma DiscStream()
    ensures FiveBytes(Seeded(KEY), 0, 0) == Key(0x1e, 0xed, 0xed, 0x7e, 0x45)
  {
  }
  lemma DiscPasses()
    ensures SecondPass(Key(0x1e, 0xed, 0xed, 0x7e, 0x45), FirstPass(Key(0x1e, 0xed, 0xed, 0x7e, 0x45), BLOCK))
         == Key(0xb5, 0x56, 0x33, 0xc1, 0x3a)
  {
    assert FirstPass(Key(0x1e, 0xed, 0xed, 0x7e, 0x45), BLOCK) == Key(0x9b, 0xe3, 0x40, 0xff, 0x63);
  }

  // The same block as a title key, sent under a bus key
  lemma TitleKeyIsKnown()
    ensures Received([0x01, 0x02, 0x03, 0x04, 0x05], KEY, [0x9b, 0x33, 0x7a, 0xbb, 0x7e])
         == Key(0xfa, 0x27, 0x30, 0xcc, 0x93)
  {
    hide At, FiveBytes, FirstPass, SecondPass;
    assert KeyOf(Unmasked([0x01, 0x02, 0x03, 0x04, 0x05], [0x9b, 0x33, 0x7a, 0xbb, 0x7e])) == BLOCK;
    FiveBytesAre(Seeded(KEY), 0xff, 0);
    TitleStream();
    TitlePasses();
  }
  lemma TitleStream()
    ensures FiveBytes(Seeded(KEY), 0xff, 0) == Key(0xd3, 0xa0, 0x84, 0x59, 0xf6)
  {
  }
  lemma TitlePasses()
    ensures SecondPass(Key(0xd3, 0xa0, 0x84, 0x59, 0xf6), FirstPass(Key(0xd3, 0xa0, 0x84, 0x59, 0xf6), BLOCK))
         == Key(0xfa, 0x27, 0x30, 0xcc, 0x93)
  {
    assert FirstPass(Key(0xd3, 0xa0, 0x84, 0x59, 0xf6), BLOCK) == Key(0xe5, 0xae, 0x29, 0xd8, 0xd0);
  }
}
