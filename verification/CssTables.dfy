/** The lookup tables of src/csstables.h and the algebra behind them.

    A table indexed by a byte is a function on bv8: each row of sixteen entries is selected by
    the low half of the index, the row itself by the high half. p_css_tab3 repeats one row of
    eight 64 times, so that row is written once. The last 32 entries of p_crypt_tab3 lie beyond
    any uint8_t index and are not written. */
module CssTables {

  // The entry among sixteen that the low four bits of i select.
  function Pick16(i: bv8, v0: bv8, v1: bv8, v2: bv8, v3: bv8, v4: bv8, v5: bv8, v6: bv8, v7: bv8,
                  v8: bv8, v9: bv8, va: bv8, vb: bv8, vc: bv8, vd: bv8, ve: bv8, vf: bv8): bv8
  {
    if i < 8 then
      if i < 4 then
        if i < 2 then (if i < 1 then v0 else v1) else (if i < 3 then v2 else v3)
      else
        if i < 6 then (if i < 5 then v4 else v5) else (if i < 7 then v6 else v7)
    else
      if i < 12 then
        if i < 10 then (if i < 9 then v8 else v9) else (if i < 11 then va else vb)
      else
        if i < 14 then (if i < 13 then vc else vd) else (if i < 15 then ve else vf)
  }

  // p_css_tab1, the substitution of the scrambled bytes
  function CssTab1(x: bv8): bv8 {
    Pick16(x >> 4,
           Pick16(x & 15, 0x33, 0x73, 0x3b, 0x26, 0x63, 0x23, 0x6b, 0x76, 0x3e, 0x7e, 0x36, 0x2b, 0x6e, 0x2e, 0x66, 0x7b),
           Pick16(x & 15, 0xd3, 0x93, 0xdb, 0x06, 0x43, 0x03, 0x4b, 0x96, 0xde, 0x9e, 0xd6, 0x0b, 0x4e, 0x0e, 0x46, 0x9b),
           Pick16(x & 15, 0x57, 0x17, 0x5f, 0x82, 0xc7, 0x87, 0xcf, 0x12, 0x5a, 0x1a, 0x52, 0x8f, 0xca, 0x8a, 0xc2, 0x1f),
           Pick16(x & 15, 0xd9, 0x99, 0xd1, 0x00, 0x49, 0x09, 0x41, 0x90, 0xd8, 0x98, 0xd0, 0x01, 0x48, 0x08, 0x40, 0x91),
           Pick16(x & 15, 0x3d, 0x7d, 0x35, 0x24, 0x6d, 0x2d, 0x65, 0x74, 0x3c, 0x7c, 0x34, 0x25, 0x6c, 0x2c, 0x64, 0x75),
           Pick16(x & 15, 0xdd, 0x9d, 0xd5, 0x04, 0x4d, 0x0d, 0x45, 0x94, 0xdc, 0x9c, 0xd4, 0x05, 0x4c, 0x0c, 0x44, 0x95),
           Pick16(x & 15, 0x59, 0x19, 0x51, 0x80, 0xc9, 0x89, 0xc1, 0x10, 0x58, 0x18, 0x50, 0x81, 0xc8, 0x88, 0xc0, 0x11),
           Pick16(x & 15, 0xd7, 0x97, 0xdf, 0x02, 0x47, 0x07, 0x4f, 0x92, 0xda, 0x9a, 0xd2, 0x0f, 0x4a, 0x0a, 0x42, 0x9f),
           Pick16(x & 15, 0x53, 0x13, 0x5b, 0x86, 0xc3, 0x83, 0xcb, 0x16, 0x5e, 0x1e, 0x56, 0x8b, 0xce, 0x8e, 0xc6, 0x1b),
           Pick16(x & 15, 0xb3, 0xf3, 0xbb, 0xa6, 0xe3, 0xa3, 0xeb, 0xf6, 0xbe, 0xfe, 0xb6, 0xab, 0xee, 0xae, 0xe6, 0xfb),
           Pick16(x & 15, 0x37, 0x77, 0x3f, 0x22, 0x67, 0x27, 0x6f, 0x72, 0x3a, 0x7a, 0x32, 0x2f, 0x6a, 0x2a, 0x62, 0x7f),
           Pick16(x & 15, 0xb9, 0xf9, 0xb1, 0xa0, 0xe9, 0xa9, 0xe1, 0xf0, 0xb8, 0xf8, 0xb0, 0xa1, 0xe8, 0xa8, 0xe0, 0xf1),
           Pick16(x & 15, 0x5d, 0x1d, 0x55, 0x84, 0xcd, 0x8d, 0xc5, 0x14, 0x5c, 0x1c, 0x54, 0x85, 0xcc, 0x8c, 0xc4, 0x15),
           Pick16(x & 15, 0xbd, 0xfd, 0xb5, 0xa4, 0xed, 0xad, 0xe5, 0xf4, 0xbc, 0xfc, 0xb4, 0xa5, 0xec, 0xac, 0xe4, 0xf5),
           Pick16(x & 15, 0x39, 0x79, 0x31, 0x20, 0x69, 0x29, 0x61, 0x70, 0x38, 0x78, 0x30, 0x21, 0x68, 0x28, 0x60, 0x71),
           Pick16(x & 15, 0xb7, 0xf7, 0xbf, 0xa2, 0xe7, 0xa7, 0xef, 0xf2, 0xba, 0xfa, 0xb2, 0xaf, 0xea, 0xaa, 0xe2, 0xff))
  }

  // p_css_tab2, the contribution of the high byte of the 17-bit register
  function CssTab2(x: bv8): bv8 {
    Pick16(x >> 4,
           Pick16(x & 15, 0x00, 0x01, 0x02, 0x03, 0x04, 0x05, 0x06, 0x07, 0x09, 0x08, 0x0b, 0x0a, 0x0d, 0x0c, 0x0f, 0x0e),
           Pick16(x & 15, 0x12, 0x13, 0x10, 0x11, 0x16, 0x17, 0x14, 0x15, 0x1b, 0x1a, 0x19, 0x18, 0x1f, 0x1e, 0x1d, 0x1c),
           Pick16(x & 15, 0x24, 0x25, 0x26, 0x27, 0x20, 0x21, 0x22, 0x23, 0x2d, 0x2c, 0x2f, 0x2e, 0x29, 0x28, 0x2b, 0x2a),
           Pick16(x & 15, 0x36, 0x37, 0x34, 0x35, 0x32, 0x33, 0x30, 0x31, 0x3f, 0x3e, 0x3d, 0x3c, 0x3b, 0x3a, 0x39, 0x38),
           Pick16(x & 15, 0x49, 0x48, 0x4b, 0x4a, 0x4d, 0x4c, 0x4f, 0x4e, 0x40, 0x41, 0x42, 0x43, 0x44, 0x45, 0x46, 0x47),
           Pick16(x & 15, 0x5b, 0x5a, 0x59, 0x58, 0x5f, 0x5e, 0x5d, 0x5c, 0x52, 0x53, 0x50, 0x51, 0x56, 0x57, 0x54, 0x55),
           Pick16(x & 15, 0x6d, 0x6c, 0x6f, 0x6e, 0x69, 0x68, 0x6b, 0x6a, 0x64, 0x65, 0x66, 0x67, 0x60, 0x61, 0x62, 0x63),
           Pick16(x & 15, 0x7f, 0x7e, 0x7d, 0x7c, 0x7b, 0x7a, 0x79, 0x78, 0x76, 0x77, 0x74, 0x75, 0x72, 0x73, 0x70, 0x71),
           Pick16(x & 15, 0x92, 0x93, 0x90, 0x91, 0x96, 0x97, 0x94, 0x95, 0x9b, 0x9a, 0x99, 0x98, 0x9f, 0x9e, 0x9d, 0x9c),
           Pick16(x & 15, 0x80, 0x81, 0x82, 0x83, 0x84, 0x85, 0x86, 0x87, 0x89, 0x88, 0x8b, 0x8a, 0x8d, 0x8c, 0x8f, 0x8e),
           Pick16(x & 15, 0xb6, 0xb7, 0xb4, 0xb5, 0xb2, 0xb3, 0xb0, 0xb1, 0xbf, 0xbe, 0xbd, 0xbc, 0xbb, 0xba, 0xb9, 0xb8),
           Pick16(x & 15, 0xa4, 0xa5, 0xa6, 0xa7, 0xa0, 0xa1, 0xa2, 0xa3, 0xad, 0xac, 0xaf, 0xae, 0xa9, 0xa8, 0xab, 0xaa),
           Pick16(x & 15, 0xdb, 0xda, 0xd9, 0xd8, 0xdf, 0xde, 0xdd, 0xdc, 0xd2, 0xd3, 0xd0, 0xd1, 0xd6, 0xd7, 0xd4, 0xd5),
           Pick16(x & 15, 0xc9, 0xc8, 0xcb, 0xca, 0xcd, 0xcc, 0xcf, 0xce, 0xc0, 0xc1, 0xc2, 0xc3, 0xc4, 0xc5, 0xc6, 0xc7),
           Pick16(x & 15, 0xff, 0xfe, 0xfd, 0xfc, 0xfb, 0xfa, 0xf9, 0xf8, 0xf6, 0xf7, 0xf4, 0xf5, 0xf2, 0xf3, 0xf0, 0xf1),
           Pick16(x & 15, 0xed, 0xec, 0xef, 0xee, 0xe9, 0xe8, 0xeb, 0xea, 0xe4, 0xe5, 0xe6, 0xe7, 0xe0, 0xe1, 0xe2, 0xe3))
  }

  // p_css_tab3, the contribution of the low nine bits of the 17-bit register
  function CssTab3(x: bv9): bv8 {
    Pick16((x & 7) as bv8, 0x00, 0x24, 0x49, 0x6d, 0x92, 0xb6, 0xdb, 0xff,
           0x00, 0x24, 0x49, 0x6d, 0x92, 0xb6, 0xdb, 0xff)
  }

  // p_css_tab4
  function CssTab4(x: bv8): bv8 {
    Pick16(x >> 4,
           Pick16(x & 15, 0x00, 0x80, 0x40, 0xc0, 0x20, 0xa0, 0x60, 0xe0, 0x10, 0x90, 0x50, 0xd0, 0x30, 0xb0, 0x70, 0xf0),
           Pick16(x & 15, 0x08, 0x88, 0x48, 0xc8, 0x28, 0xa8, 0x68, 0xe8, 0x18, 0x98, 0x58, 0xd8, 0x38, 0xb8, 0x78, 0xf8),
           Pick16(x & 15, 0x04, 0x84, 0x44, 0xc4, 0x24, 0xa4, 0x64, 0xe4, 0x14, 0x94, 0x54, 0xd4, 0x34, 0xb4, 0x74, 0xf4),
           Pick16(x & 15, 0x0c, 0x8c, 0x4c, 0xcc, 0x2c, 0xac, 0x6c, 0xec, 0x1c, 0x9c, 0x5c, 0xdc, 0x3c, 0xbc, 0x7c, 0xfc),
           Pick16(x & 15, 0x02, 0x82, 0x42, 0xc2, 0x22, 0xa2, 0x62, 0xe2, 0x12, 0x92, 0x52, 0xd2, 0x32, 0xb2, 0x72, 0xf2),
           Pick16(x & 15, 0x0a, 0x8a, 0x4a, 0xca, 0x2a, 0xaa, 0x6a, 0xea, 0x1a, 0x9a, 0x5a, 0xda, 0x3a, 0xba, 0x7a, 0xfa),
           Pick16(x & 15, 0x06, 0x86, 0x46, 0xc6, 0x26, 0xa6, 0x66, 0xe6, 0x16, 0x96, 0x56, 0xd6, 0x36, 0xb6, 0x76, 0xf6),
           Pick16(x & 15, 0x0e, 0x8e, 0x4e, 0xce, 0x2e, 0xae, 0x6e, 0xee, 0x1e, 0x9e, 0x5e, 0xde, 0x3e, 0xbe, 0x7e, 0xfe),
           Pick16(x & 15, 0x01, 0x81, 0x41, 0xc1, 0x21, 0xa1, 0x61, 0xe1, 0x11, 0x91, 0x51, 0xd1, 0x31, 0xb1, 0x71, 0xf1),
           Pick16(x & 15, 0x09, 0x89, 0x49, 0xc9, 0x29, 0xa9, 0x69, 0xe9, 0x19, 0x99, 0x59, 0xd9, 0x39, 0xb9, 0x79, 0xf9),
           Pick16(x & 15, 0x05, 0x85, 0x45, 0xc5, 0x25, 0xa5, 0x65, 0xe5, 0x15, 0x95, 0x55, 0xd5, 0x35, 0xb5, 0x75, 0xf5),
           Pick16(x & 15, 0x0d, 0x8d, 0x4d, 0xcd, 0x2d, 0xad, 0x6d, 0xed, 0x1d, 0x9d, 0x5d, 0xdd, 0x3d, 0xbd, 0x7d, 0xfd),
           Pick16(x & 15, 0x03, 0x83, 0x43, 0xc3, 0x23, 0xa3, 0x63, 0xe3, 0x13, 0x93, 0x53, 0xd3, 0x33, 0xb3, 0x73, 0xf3),
           Pick16(x & 15, 0x0b, 0x8b, 0x4b, 0xcb, 0x2b, 0xab, 0x6b, 0xeb, 0x1b, 0x9b, 0x5b, 0xdb, 0x3b, 0xbb, 0x7b, 0xfb),
           Pick16(x & 15, 0x07, 0x87, 0x47, 0xc7, 0x27, 0xa7, 0x67, 0xe7, 0x17, 0x97, 0x57, 0xd7, 0x37, 0xb7, 0x77, 0xf7),
           Pick16(x & 15, 0x0f, 0x8f, 0x4f, 0xcf, 0x2f, 0xaf, 0x6f, 0xef, 0x1f, 0x9f, 0x5f, 0xdf, 0x3f, 0xbf, 0x7f, 0xff))
  }

  // p_css_tab5
  function CssTab5(x: bv8): bv8 {
    Pick16(x >> 4,
           Pick16(x & 15, 0xff, 0x7f, 0xbf, 0x3f, 0xdf, 0x5f, 0x9f, 0x1f, 0xef, 0x6f, 0xaf, 0x2f, 0xcf, 0x4f, 0x8f, 0x0f),
           Pick16(x & 15, 0xf7, 0x77, 0xb7, 0x37, 0xd7, 0x57, 0x97, 0x17, 0xe7, 0x67, 0xa7, 0x27, 0xc7, 0x47, 0x87, 0x07),
           Pick16(x & 15, 0xfb, 0x7b, 0xbb, 0x3b, 0xdb, 0x5b, 0x9b, 0x1b, 0xeb, 0x6b, 0xab, 0x2b, 0xcb, 0x4b, 0x8b, 0x0b),
           Pick16(x & 15, 0xf3, 0x73, 0xb3, 0x33, 0xd3, 0x53, 0x93, 0x13, 0xe3, 0x63, 0xa3, 0x23, 0xc3, 0x43, 0x83, 0x03),
           Pick16(x & 15, 0xfd, 0x7d, 0xbd, 0x3d, 0xdd, 0x5d, 0x9d, 0x1d, 0xed, 0x6d, 0xad, 0x2d, 0xcd, 0x4d, 0x8d, 0x0d),
           Pick16(x & 15, 0xf5, 0x75, 0xb5, 0x35, 0xd5, 0x55, 0x95, 0x15, 0xe5, 0x65, 0xa5, 0x25, 0xc5, 0x45, 0x85, 0x05),
           Pick16(x & 15, 0xf9, 0x79, 0xb9, 0x39, 0xd9, 0x59, 0x99, 0x19, 0xe9, 0x69, 0xa9, 0x29, 0xc9, 0x49, 0x89, 0x09),
           Pick16(x & 15, 0xf1, 0x71, 0xb1, 0x31, 0xd1, 0x51, 0x91, 0x11, 0xe1, 0x61, 0xa1, 0x21, 0xc1, 0x41, 0x81, 0x01),
           Pick16(x & 15, 0xfe, 0x7e, 0xbe, 0x3e, 0xde, 0x5e, 0x9e, 0x1e, 0xee, 0x6e, 0xae, 0x2e, 0xce, 0x4e, 0x8e, 0x0e),
           Pick16(x & 15, 0xf6, 0x76, 0xb6, 0x36, 0xd6, 0x56, 0x96, 0x16, 0xe6, 0x66, 0xa6, 0x26, 0xc6, 0x46, 0x86, 0x06),
           Pick16(x & 15, 0xfa, 0x7a, 0xba, 0x3a, 0xda, 0x5a, 0x9a, 0x1a, 0xea, 0x6a, 0xaa, 0x2a, 0xca, 0x4a, 0x8a, 0x0a),
           Pick16(x & 15, 0xf2, 0x72, 0xb2, 0x32, 0xd2, 0x52, 0x92, 0x12, 0xe2, 0x62, 0xa2, 0x22, 0xc2, 0x42, 0x82, 0x02),
           Pick16(x & 15, 0xfc, 0x7c, 0xbc, 0x3c, 0xdc, 0x5c, 0x9c, 0x1c, 0xec, 0x6c, 0xac, 0x2c, 0xcc, 0x4c, 0x8c, 0x0c),
           Pick16(x & 15, 0xf4, 0x74, 0xb4, 0x34, 0xd4, 0x54, 0x94, 0x14, 0xe4, 0x64, 0xa4, 0x24, 0xc4, 0x44, 0x84, 0x04),
           Pick16(x & 15, 0xf8, 0x78, 0xb8, 0x38, 0xd8, 0x58, 0x98, 0x18, 0xe8, 0x68, 0xa8, 0x28, 0xc8, 0x48, 0x88, 0x08),
           Pick16(x & 15, 0xf0, 0x70, 0xb0, 0x30, 0xd0, 0x50, 0x90, 0x10, 0xe0, 0x60, 0xa0, 0x20, 0xc0, 0x40, 0x80, 0x00))
  }

  // p_crypt_tab0
  function CryptTab0(x: bv8): bv8 {
    Pick16(x >> 4,
           Pick16(x & 15, 0xb7, 0xf4, 0x82, 0x57, 0xda, 0x4d, 0xdb, 0xe2, 0x2f, 0x52, 0x1a, 0xa8, 0x68, 0x5a, 0x8a, 0xff),
           Pick16(x & 15, 0xfb, 0x0e, 0x6d, 0x35, 0xf7, 0x5c, 0x76, 0x12, 0xce, 0x25, 0x79, 0x29, 0x39, 0x62, 0x08, 0x24),
           Pick16(x & 15, 0xa5, 0x85, 0x7b, 0x56, 0x01, 0x23, 0x68, 0xcf, 0x0a, 0xe2, 0x5a, 0xed, 0x3d, 0x59, 0xb0, 0xa9),
           Pick16(x & 15, 0xb0, 0x2c, 0xf2, 0xb8, 0xef, 0x32, 0xa9, 0x40, 0x80, 0x71, 0xaf, 0x1e, 0xde, 0x8f, 0x58, 0x88),
           Pick16(x & 15, 0xb8, 0x3a, 0xd0, 0xfc, 0xc4, 0x1e, 0xb5, 0xa0, 0xbb, 0x3b, 0x0f, 0x01, 0x7e, 0x1f, 0x9f, 0xd9),
           Pick16(x & 15, 0xaa, 0xb8, 0x3d, 0x9d, 0x74, 0x1e, 0x25, 0xdb, 0x37, 0x56, 0x8f, 0x16, 0xba, 0x49, 0x2b, 0xac),
           Pick16(x & 15, 0xd0, 0xbd, 0x95, 0x20, 0xbe, 0x7a, 0x28, 0xd0, 0x51, 0x64, 0x63, 0x1c, 0x7f, 0x66, 0x10, 0xbb),
           Pick16(x & 15, 0xc4, 0x56, 0x1a, 0x04, 0x6e, 0x0a, 0xec, 0x9c, 0xd6, 0xe8, 0x9a, 0x7a, 0xcf, 0x8c, 0xdb, 0xb1),
           Pick16(x & 15, 0xef, 0x71, 0xde, 0x31, 0xff, 0x54, 0x3e, 0x5e, 0x07, 0x69, 0x96, 0xb0, 0xcf, 0xdd, 0x9e, 0x47),
           Pick16(x & 15, 0xc7, 0x96, 0x8f, 0xe4, 0x2b, 0x59, 0xc6, 0xee, 0xb9, 0x86, 0x9a, 0x64, 0x84, 0x72, 0xe2, 0x5b),
           Pick16(x & 15, 0xa2, 0x96, 0x58, 0x99, 0x50, 0x03, 0xf5, 0x38, 0x4d, 0x02, 0x7d, 0xe7, 0x7d, 0x75, 0xa7, 0xb8),
           Pick16(x & 15, 0x67, 0x87, 0x84, 0x3f, 0x1d, 0x11, 0xe5, 0xfc, 0x1e, 0xd3, 0x83, 0x16, 0xa5, 0x29, 0xf6, 0xc7),
           Pick16(x & 15, 0x15, 0x61, 0x29, 0x1a, 0x43, 0x4f, 0x9b, 0xaf, 0xc5, 0x87, 0x34, 0x6c, 0x0f, 0x3b, 0xa8, 0x1d),
           Pick16(x & 15, 0x45, 0x58, 0x25, 0xdc, 0xa8, 0xa3, 0x3b, 0xd1, 0x79, 0x1b, 0x48, 0xf2, 0xe9, 0x93, 0x1f, 0xfc),
           Pick16(x & 15, 0xdb, 0x2a, 0x90, 0xa9, 0x8a, 0x3d, 0x39, 0x18, 0xa3, 0x8e, 0x58, 0x6c, 0xe0, 0x12, 0xbb, 0x25),
           Pick16(x & 15, 0xcd, 0x71, 0x22, 0xa2, 0x64, 0xc6, 0xe7, 0xfb, 0xad, 0x94, 0x77, 0x04, 0x9a, 0x39, 0xcf, 0x7c))
  }

  // p_crypt_tab1
  function CryptTab1(x: bv8): bv8 {
    Pick16(x >> 4,
           Pick16(x & 15, 0x8c, 0x47, 0xb0, 0xe1, 0xeb, 0xfc, 0xeb, 0x56, 0x10, 0xe5, 0x2c, 0x1a, 0x5d, 0xef, 0xbe, 0x4f),
           Pick16(x & 15, 0x08, 0x75, 0x97, 0x4b, 0x0e, 0x25, 0x8e, 0x6e, 0x39, 0x5a, 0x87, 0x53, 0xc4, 0x1f, 0xf4, 0x5c),
           Pick16(x & 15, 0x4e, 0xe6, 0x99, 0x30, 0xe0, 0x42, 0x88, 0xab, 0xe5, 0x85, 0xbc, 0x8f, 0xd8, 0x3c, 0x54, 0xc9),
           Pick16(x & 15, 0x53, 0x47, 0x18, 0xd6, 0x06, 0x5b, 0x41, 0x2c, 0x67, 0x1e, 0x41, 0x74, 0x33, 0xe2, 0xb4, 0xe0),
           Pick16(x & 15, 0x23, 0x29, 0x42, 0xea, 0x55, 0x0f, 0x25, 0xb4, 0x24, 0x2c, 0x99, 0x13, 0xeb, 0x0a, 0x0b, 0xc9),
           Pick16(x & 15, 0xf9, 0x63, 0x67, 0x43, 0x2d, 0xc7, 0x7d, 0x07, 0x60, 0x89, 0xd1, 0xcc, 0xe7, 0x94, 0x77, 0x74),
           Pick16(x & 15, 0x9b, 0x7e, 0xd7, 0xe6, 0xff, 0xbb, 0x68, 0x14, 0x1e, 0xa3, 0x25, 0xde, 0x3a, 0xa3, 0x54, 0x7b),
           Pick16(x & 15, 0x87, 0x9d, 0x50, 0xca, 0x27, 0xc3, 0xa4, 0x50, 0x91, 0x27, 0xd4, 0xb0, 0x82, 0x41, 0x97, 0x79),
           Pick16(x & 15, 0x94, 0x82, 0xac, 0xc7, 0x8e, 0xa5, 0x4e, 0xaa, 0x78, 0x9e, 0xe0, 0x42, 0xba, 0x28, 0xea, 0xb7),
           Pick16(x & 15, 0x74, 0xad, 0x35, 0xda, 0x92, 0x60, 0x7e, 0xd2, 0x0e, 0xb9, 0x24, 0x5e, 0x39, 0x4f, 0x5e, 0x63),
           Pick16(x & 15, 0x09, 0xb5, 0xfa, 0xbf, 0xf1, 0x22, 0x55, 0x1c, 0xe2, 0x25, 0xdb, 0xc5, 0xd8, 0x50, 0x03, 0x98),
           Pick16(x & 15, 0xc4, 0xac, 0x2e, 0x11, 0xb4, 0x38, 0x4d, 0xd0, 0xb9, 0xfc, 0x2d, 0x3c, 0x08, 0x04, 0x5a, 0xef),
           Pick16(x & 15, 0xce, 0x32, 0xfb, 0x4c, 0x92, 0x1e, 0x4b, 0xfb, 0x1a, 0xd0, 0xe2, 0x3e, 0xda, 0x6e, 0x7c, 0x4d),
           Pick16(x & 15, 0x56, 0xc3, 0x3f, 0x42, 0xb1, 0x3a, 0x23, 0x4d, 0x6e, 0x84, 0x56, 0x68, 0xf4, 0x0e, 0x03, 0x64),
           Pick16(x & 15, 0xd0, 0xa9, 0x92, 0x2f, 0x8b, 0xbc, 0x39, 0x9c, 0xac, 0x09, 0x5e, 0xee, 0xe5, 0x97, 0xbf, 0xa5),
           Pick16(x & 15, 0xce, 0xfa, 0x28, 0x2c, 0x6d, 0x4f, 0xef, 0x77, 0xaa, 0x1b, 0x79, 0x8e, 0x97, 0xb4, 0xc3, 0xf4))
  }

  // p_crypt_tab2
  function CryptTab2(x: bv8): bv8 {
    Pick16(x >> 4,
           Pick16(x & 15, 0xb7, 0x75, 0x81, 0xd5, 0xdc, 0xca, 0xde, 0x66, 0x23, 0xdf, 0x15, 0x26, 0x62, 0xd1, 0x83, 0x77),
           Pick16(x & 15, 0xe3, 0x97, 0x76, 0xaf, 0xe9, 0xc3, 0x6b, 0x8e, 0xda, 0xb0, 0x6e, 0xbf, 0x2b, 0xf1, 0x19, 0xb4),
           Pick16(x & 15, 0x95, 0x34, 0x48, 0xe4, 0x37, 0x94, 0x5d, 0x7b, 0x36, 0x5f, 0x65, 0x53, 0x07, 0xe2, 0x89, 0x11),
           Pick16(x & 15, 0x98, 0x85, 0xd9, 0x12, 0xc1, 0x9d, 0x84, 0xec, 0xa4, 0xd4, 0x88, 0xb8, 0xfc, 0x2c, 0x79, 0x28),
           Pick16(x & 15, 0xd8, 0xdb, 0xb3, 0x1e, 0xa2, 0xf9, 0xd0, 0x44, 0xd7, 0xd6, 0x60, 0xef, 0x14, 0xf4, 0xf6, 0x31),
           Pick16(x & 15, 0xd2, 0x41, 0x46, 0x67, 0x0a, 0xe1, 0x58, 0x27, 0x43, 0xa3, 0xf8, 0xe0, 0xc8, 0xba, 0x5a, 0x5c),
           Pick16(x & 15, 0x80, 0x6c, 0xc6, 0xf2, 0xe8, 0xad, 0x7d, 0x04, 0x0d, 0xb9, 0x3c, 0xc2, 0x25, 0xbd, 0x49, 0x63),
           Pick16(x & 15, 0x8c, 0x9f, 0x51, 0xce, 0x20, 0xc5, 0xa1, 0x50, 0x92, 0x2d, 0xdd, 0xbc, 0x8d, 0x4f, 0x9a, 0x71),
           Pick16(x & 15, 0x2f, 0x30, 0x1d, 0x73, 0x39, 0x13, 0xfb, 0x1a, 0xcb, 0x24, 0x59, 0xfe, 0x05, 0x96, 0x57, 0x0f),
           Pick16(x & 15, 0x1f, 0xcf, 0x54, 0xbe, 0xf5, 0x06, 0x1b, 0xb2, 0x6d, 0xd3, 0x4d, 0x32, 0x56, 0x21, 0x33, 0x0b),
           Pick16(x & 15, 0x52, 0xe7, 0xab, 0xeb, 0xa6, 0x74, 0x00, 0x4c, 0xb1, 0x7f, 0x82, 0x99, 0x87, 0x0e, 0x5e, 0xc0),
           Pick16(x & 15, 0x8f, 0xee, 0x6f, 0x55, 0xf3, 0x7e, 0x08, 0x90, 0xfa, 0xb6, 0x64, 0x70, 0x47, 0x4a, 0x17, 0xa7),
           Pick16(x & 15, 0xb5, 0x40, 0x8a, 0x38, 0xe5, 0x68, 0x3e, 0x8b, 0x69, 0xaa, 0x9b, 0x42, 0xa5, 0x10, 0x01, 0x35),
           Pick16(x & 15, 0xfd, 0x61, 0x9e, 0xe6, 0x16, 0x9c, 0x86, 0xed, 0xcd, 0x2e, 0xff, 0xc4, 0x5b, 0xa0, 0xae, 0xcc),
           Pick16(x & 15, 0x4b, 0x3b, 0x03, 0xbb, 0x1c, 0x2a, 0xac, 0x0c, 0x3f, 0x93, 0xc7, 0x72, 0x7a, 0x09, 0x22, 0x3d),
           Pick16(x & 15, 0x45, 0x78, 0xa9, 0xa8, 0xea, 0xc9, 0x6a, 0xf7, 0x29, 0x91, 0xf0, 0x02, 0x18, 0x3a, 0x4e, 0x7c))
  }

  // p_crypt_tab3, the part a uint8_t can reach
  function CryptTab3(x: bv8): bv8 {
    Pick16(x >> 4,
           Pick16(x & 15, 0x73, 0x51, 0x95, 0xe1, 0x12, 0xe4, 0xc0, 0x58, 0xee, 0xf2, 0x08, 0x1b, 0xa9, 0xfa, 0x98, 0x4c),
           Pick16(x & 15, 0xa7, 0x33, 0xe2, 0x1b, 0xa7, 0x6d, 0xf5, 0x30, 0x97, 0x1d, 0xf3, 0x02, 0x60, 0x5a, 0x82, 0x0f),
           Pick16(x & 15, 0x91, 0xd0, 0x9c, 0x10, 0x39, 0x7a, 0x83, 0x85, 0x3b, 0xb2, 0xb8, 0xae, 0x0c, 0x09, 0x52, 0xea),
           Pick16(x & 15, 0x1c, 0xe1, 0x8d, 0x66, 0x4f, 0xf3, 0xda, 0x92, 0x29, 0xb9, 0xd5, 0xc5, 0x77, 0x47, 0x22, 0x53),
           Pick16(x & 15, 0x14, 0xf7, 0xaf, 0x22, 0x64, 0xdf, 0xc6, 0x72, 0x12, 0xf3, 0x75, 0xda, 0xd7, 0xd7, 0xe5, 0x02),
           Pick16(x & 15, 0x9e, 0xed, 0xda, 0xdb, 0x4c, 0x47, 0xce, 0x91, 0x06, 0x06, 0x6d, 0x55, 0x8b, 0x19, 0xc9, 0xef),
           Pick16(x & 15, 0x8c, 0x80, 0x1a, 0x0e, 0xee, 0x4b, 0xab, 0xf2, 0x08, 0x5c, 0xe9, 0x37, 0x26, 0x5e, 0x9a, 0x90),
           Pick16(x & 15, 0x00, 0xf3, 0x0d, 0xb2, 0xa6, 0xa3, 0xf7, 0x26, 0x17, 0x48, 0x88, 0xc9, 0x0e, 0x2c, 0xc9, 0x02),
           Pick16(x & 15, 0xe7, 0x18, 0x05, 0x4b, 0xf3, 0x39, 0xe1, 0x20, 0x02, 0x0d, 0x40, 0xc7, 0xca, 0xb9, 0x48, 0x30),
           Pick16(x & 15, 0x57, 0x67, 0xcc, 0x06, 0xbf, 0xac, 0x81, 0x08, 0x24, 0x7a, 0xd4, 0x8b, 0x19, 0x8e, 0xac, 0xb4),
           Pick16(x & 15, 0x5a, 0x0f, 0x73, 0x13, 0xac, 0x9e, 0xda, 0xb6, 0xb8, 0x96, 0x5b, 0x60, 0x88, 0xe1, 0x81, 0x3f),
           Pick16(x & 15, 0x07, 0x86, 0x37, 0x2d, 0x79, 0x14, 0x52, 0xea, 0x73, 0xdf, 0x3d, 0x09, 0xc8, 0x25, 0x48, 0xd8),
           Pick16(x & 15, 0x75, 0x60, 0x9a, 0x08, 0x27, 0x4a, 0x2c, 0xb9, 0xa8, 0x8b, 0x8a, 0x73, 0x62, 0x37, 0x16, 0x02),
           Pick16(x & 15, 0xbd, 0xc1, 0x0e, 0x56, 0x54, 0x3e, 0x14, 0x5f, 0x8c, 0x8f, 0x6e, 0x75, 0x1c, 0x07, 0x39, 0x7b),
           Pick16(x & 15, 0x4b, 0xdb, 0xd3, 0x4b, 0x1e, 0xc8, 0x7e, 0xfe, 0x3e, 0x72, 0x16, 0x83, 0x7d, 0xee, 0xf5, 0xca),
           Pick16(x & 15, 0xc5, 0x18, 0xf9, 0xd8, 0x68, 0xab, 0x38, 0x85, 0xa8, 0xf0, 0xa1, 0x73, 0x9f, 0x5d, 0x19, 0x0b))
  }

  // ---------------------------------------------------------------------------------------
  // Gate-level descriptions of the tables
  // ---------------------------------------------------------------------------------------

  // The byte with the given bits, least significant first.
  function Byte(b0: bool, b1: bool, b2: bool, b3: bool, b4: bool, b5: bool, b6: bool, b7: bool): bv8 {
    (if b0 then 0x01 else 0) | (if b1 then 0x02 else 0) | (if b2 then 0x04 else 0) | (if b3 then 0x08 else 0) |
    (if b4 then 0x10 else 0) | (if b5 then 0x20 else 0) | (if b6 then 0x40 else 0) | (if b7 then 0x80 else 0)
  }

  // The bits of a byte in the opposite order.
  function Reversed(x: bv8): bv8 {
    ((x & 0x01) << 7) | ((x & 0x02) << 5) | ((x & 0x04) << 3) | ((x & 0x08) << 1) |
    ((x & 0x10) >> 1) | ((x & 0x20) >> 3) | ((x & 0x40) >> 5) | ((x & 0x80) >> 7)
  }

  // Four gate outputs that p_css_tab1 and its inverse share.
  function Gates(x: bv8): (bool, bool, bool, bool) {
    (((x & 0x01 != 0) && (x & 0x02 != 0)) != (x & 0x08 != 0), ((x & 0x10 != 0) && (x & 0x20 != 0)) != (x & 0x40 != 0),
     ((x & 0x01 != 0) && (x & 0x02 != 0)) != (x & 0x04 != 0), ((x & 0x10 != 0) || (x & 0x20 != 0)) != (x & 0x80 != 0))
  }

  function CssTab1Gates(x: bv8): bv8 {
    var (p, q, r, s) := Gates(x);
    Byte(!p, !q, (p || q) != (x & 0x20 != 0), (p || q) != (x & 0x02 != 0),
         !r, !s, (r || s) != (x & 0x01 != 0), (r && s) != (x & 0x10 != 0))
  }

  // The inverse of p_css_tab1. The library has no such table.
  function CssTab1Inverse(x: bv8): bv8 {
    var (p, q, r, s) := Gates(x);
    Byte(!q, !p, (p || q) != (x & 0x10 != 0), (p || q) != (x & 0x01 != 0),
         !s, !r, (r || s) != (x & 0x02 != 0), (r && s) != (x & 0x20 != 0))
  }

  lemma CssTab1IsGates(x: bv8)
    ensures CssTab1(x) == CssTab1Gates(x)
  {
    hide CssTab1, CssTab1Gates;
    if x < 0x80 {
      LowCssTab1IsGates(x);
    } else {
      HighCssTab1IsGates(x);
    }
  }
  lemma LowCssTab1IsGates(x: bv8)
    requires x < 0x80
    ensures CssTab1(x) == CssTab1Gates(x)
  {
  }
  lemma HighCssTab1IsGates(x: bv8)
    requires x >= 0x80
    ensures CssTab1(x) == CssTab1Gates(x)
  {
  }

  lemma CssTab1IsPermutation(x: bv8)
    ensures CssTab1Inverse(CssTab1(x)) == x
    ensures CssTab1(CssTab1Inverse(x)) == x
  {
    hide CssTab1;
    CssTab1IsGates(x);
    CssTab1IsGates(CssTab1Inverse(x));
  }

  // Two bytes that this function does not tell apart differ in their low three bits.
  function Fiber(u: bv8): bv8 { CssTab1(u) ^ u }
  function LowThreeBits(u: bv8): bv8 { u & 7 }

  lemma CssTab1FibersAreSmall(u: bv8, v: bv8)
    requires Fiber(u) == Fiber(v)
    requires LowThreeBits(u) == LowThreeBits(v)
    ensures u == v
  {
    hide CssTab1;
    CssTab1IsGates(u);
    CssTab1IsGates(v);
  }

  // One byte of the 17-bit register, pushed through eight single-bit steps, is this much xor.
  lemma CssTab2IsXorOfShifts(x: bv8)
    ensures CssTab2(x) == x ^ (x >> 3) ^ (x >> 6)
  {
  }

  lemma CssTab3IsXorOfShifts(x: bv9)
    ensures var y := (x & 7) as bv8; CssTab3(x) == (y << 5) ^ (y << 2) ^ (y >> 1)
  {
  }

  lemma CssTab4IsBitReversal(x: bv8)
    ensures CssTab4(x) == Reversed(x)
    ensures Reversed(Reversed(x)) == x
  {
    hide CssTab4, Reversed;
    CssTab4Reverses(x);
    ReversedIsInvolution(x);
  }
  lemma CssTab4Reverses(x: bv8)
    ensures CssTab4(x) == Reversed(x)
  {
  }
  lemma ReversedIsInvolution(x: bv8)
    ensures Reversed(Reversed(x)) == x
  {
  }

  lemma CssTab5IsComplementOfCssTab4(x: bv8)
    ensures CssTab5(x) == CssTab4(x) ^ 0xff
  {
    hide CssTab4, CssTab5, Reversed;
    CssTab4Reverses(x);
    CssTab5Reverses(x);
  }
  lemma CssTab5Reverses(x: bv8)
    ensures CssTab5(x) == Reversed(x) ^ 0xff
  {
  }

  // ---------------------------------------------------------------------------------------
  // The three combined tables of CryptKey
  // ---------------------------------------------------------------------------------------

  function Combined12(x: bv8): bv8 { CryptTab1(x) ^ !CryptTab2(x) }
  function Combined23(x: bv8): bv8 { CryptTab2(x) ^ CryptTab3(x) }
  function Combined02(x: bv8): bv8 { CryptTab0(x) ^ CryptTab2(x) }

  function Combined12Gates(x: bv8): bv8 {
    var t := ((x & 0x10 != 0) || (x & 0x20 != 0)) == (x & 0x40 != 0);
    Byte((x & 0x01 != 0), (x & 0x02 != 0), ((x & 0x01 != 0) && (x & 0x02 != 0)) == (x & 0x04 != 0),
         ((x & 0x01 != 0) || (x & 0x02 != 0) || (x & 0x04 != 0)) != (x & 0x08 != 0),
         (x & 0x10 != 0), (x & 0x20 != 0), t, t != (x & 0x80 != 0))
  }

  function Combined23Gates(x: bv8): bv8 {
    var t := ((x & 0x01 != 0) || (x & 0x02 != 0)) == (x & 0x20 != 0);
    Byte((x & 0x08 != 0), (x & 0x04 != 0), ((x & 0x04 != 0) && (x & 0x08 != 0)) == (x & 0x80 != 0),
         ((x & 0x04 != 0) || (x & 0x08 != 0) || (x & 0x80 != 0)) != (x & 0x40 != 0),
         (x & 0x02 != 0), (x & 0x01 != 0), t, t != (x & 0x10 != 0))
  }

  function Combined12Inverse(x: bv8): bv8 {
    Byte((x & 0x01 != 0), (x & 0x02 != 0), ((x & 0x01 != 0) && (x & 0x02 != 0)) == (x & 0x04 != 0),
         (x & 0x08 != 0) == ((x & 0x04 != 0) && !(x & 0x01 != 0) && !(x & 0x02 != 0)),
         (x & 0x10 != 0), (x & 0x20 != 0), ((x & 0x10 != 0) || (x & 0x20 != 0)) == (x & 0x40 != 0), (x & 0x40 != 0) != (x & 0x80 != 0))
  }

  function Combined23Inverse(x: bv8): bv8 {
    Byte((x & 0x20 != 0), (x & 0x10 != 0), (x & 0x02 != 0), (x & 0x01 != 0), (x & 0x40 != 0) != (x & 0x80 != 0),
         ((x & 0x10 != 0) || (x & 0x20 != 0)) == (x & 0x40 != 0),
         (x & 0x08 != 0) == ((x & 0x04 != 0) && !(x & 0x01 != 0) && !(x & 0x02 != 0)),
         ((x & 0x01 != 0) && (x & 0x02 != 0)) == (x & 0x04 != 0))
  }

  lemma Combined12IsGates(x: bv8)
    ensures Combined12(x) == Combined12Gates(x)
  {
    hide Combined12, Combined12Gates;
    if x < 0x80 {
      LowCombined12IsGates(x);
    } else {
      HighCombined12IsGates(x);
    }
  }
  lemma LowCombined12IsGates(x: bv8)
    requires x < 0x80
    ensures Combined12(x) == Combined12Gates(x)
  {
  }
  lemma HighCombined12IsGates(x: bv8)
    requires x >= 0x80
    ensures Combined12(x) == Combined12Gates(x)
  {
  }

  lemma Combined23IsGates(x: bv8)
    ensures Combined23(x) == Combined23Gates(x)
  {
    hide Combined23, Combined23Gates;
    if x < 0x80 {
      LowCombined23IsGates(x);
    } else {
      HighCombined23IsGates(x);
    }
  }
  lemma LowCombined23IsGates(x: bv8)
    requires x < 0x80
    ensures Combined23(x) == Combined23Gates(x)
  {
  }
  lemma HighCombined23IsGates(x: bv8)
    requires x >= 0x80
    ensures Combined23(x) == Combined23Gates(x)
  {
  }

  // Masked with p_crypt_tab2, the seemingly random p_crypt_tab0 is a byte xored with itself rotated.
  lemma Combined02IsXorWithRotation(x: bv8)
    ensures Combined02(x) == x ^ ((x >> 1) | (x << 7))
  {
    hide Combined02;
    if x < 0x80 {
      LowCombined02IsXorWithRotation(x);
    } else {
      HighCombined02IsXorWithRotation(x);
    }
  }
  lemma LowCombined02IsXorWithRotation(x: bv8)
    requires x < 0x80
    ensures Combined02(x) == x ^ ((x >> 1) | (x << 7))
  {
  }
  lemma HighCombined02IsXorWithRotation(x: bv8)
    requires x >= 0x80
    ensures Combined02(x) == x ^ ((x >> 1) | (x << 7))
  {
  }

  lemma Combined12IsPermutation(x: bv8)
    ensures Combined12Inverse(Combined12(x)) == x
    ensures Combined12(Combined12Inverse(x)) == x
  {
    hide Combined12;
    Combined12IsGates(x);
    Combined12IsGates(Combined12Inverse(x));
  }

  lemma Combined23IsPermutation(x: bv8)
    ensures Combined23Inverse(Combined23(x)) == x
    ensures Combined23(Combined23Inverse(x)) == x
  {
    hide Combined23;
    Combined23IsGates(x);
    Combined23IsGates(Combined23Inverse(x));
  }

  // The third combination is not a permutation: it merges every byte with its complement, and no others.
  lemma Combined02MergesComplements(x: bv8, y: bv8)
    ensures Combined02(x) == Combined02(y) <==> y == x || y == !x
  {
    hide Combined02;
    Combined02IsXorWithRotation(x);
    Combined02IsXorWithRotation(y);
  }
}
