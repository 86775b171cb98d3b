/** The lookup tables of examples/aes_encrypt/aes.c, entry by entry.

    The high nibble selects a row and the low nibble an entry of it, as in the 16 by 16 arrays of the code.  The
    six columns of `gf_mul` are the multiples of a byte by 2, 3, 9, 11, 13 and 14. */
module AesTables {

  // aes_sbox
  function Sbox(x: bv8): bv8 {
    var c := x & 0x0F;
    match x >> 4
    case 0x0 =>
      (match c case 0 => 0x63 case 1 => 0x7C case 2 => 0x77 case 3 => 0x7B case 4 => 0xF2 case 5 => 0x6B
              case 6 => 0x6F case 7 => 0xC5 case 8 => 0x30 case 9 => 0x01 case 10 => 0x67 case 11 => 0x2B
              case 12 => 0xFE case 13 => 0xD7 case 14 => 0xAB case _ => 0x76)
    case 0x1 =>
      (match c case 0 => 0xCA case 1 => 0x82 case 2 => 0xC9 case 3 => 0x7D case 4 => 0xFA case 5 => 0x59
              case 6 => 0x47 case 7 => 0xF0 case 8 => 0xAD case 9 => 0xD4 case 10 => 0xA2 case 11 => 0xAF
              case 12 => 0x9C case 13 => 0xA4 case 14 => 0x72 case _ => 0xC0)
    case 0x2 =>
      (match c case 0 => 0xB7 case 1 => 0xFD case 2 => 0x93 case 3 => 0x26 case 4 => 0x36 case 5 => 0x3F
              case 6 => 0xF7 case 7 => 0xCC case 8 => 0x34 case 9 => 0xA5 case 10 => 0xE5 case 11 => 0xF1
              case 12 => 0x71 case 13 => 0xD8 case 14 => 0x31 case _ => 0x15)
    case 0x3 =>
      (match c case 0 => 0x04 case 1 => 0xC7 case 2 => 0x23 case 3 => 0xC3 case 4 => 0x18 case 5 => 0x96
              case 6 => 0x05 case 7 => 0x9A case 8 => 0x07 case 9 => 0x12 case 10 => 0x80 case 11 => 0xE2
              case 12 => 0xEB case 13 => 0x27 case 14 => 0xB2 case _ => 0x75)
    case 0x4 =>
      (match c case 0 => 0x09 case 1 => 0x83 case 2 => 0x2C case 3 => 0x1A case 4 => 0x1B case 5 => 0x6E
              case 6 => 0x5A case 7 => 0xA0 case 8 => 0x52 case 9 => 0x3B case 10 => 0xD6 case 11 => 0xB3
              case 12 => 0x29 case 13 => 0xE3 case 14 => 0x2F case _ => 0x84)
    case 0x5 =>
      (match c case 0 => 0x53 case 1 => 0xD1 case 2 => 0x00 case 3 => 0xED case 4 => 0x20 case 5 => 0xFC
              case 6 => 0xB1 case 7 => 0x5B case 8 => 0x6A case 9 => 0xCB case 10 => 0xBE case 11 => 0x39
              case 12 => 0x4A case 13 => 0x4C case 14 => 0x58 case _ => 0xCF)
    case 0x6 =>
      (match c case 0 => 0xD0 case 1 => 0xEF case 2 => 0xAA case 3 => 0xFB case 4 => 0x43 case 5 => 0x4D
              case 6 => 0x33 case 7 => 0x85 case 8 => 0x45 case 9 => 0xF9 case 10 => 0x02 case 11 => 0x7F
              case 12 => 0x50 case 13 => 0x3C case 14 => 0x9F case _ => 0xA8)
    case 0x7 =>
      (match c case 0 => 0x51 case 1 => 0xA3 case 2 => 0x40 case 3 => 0x8F case 4 => 0x92 case 5 => 0x9D
              case 6 => 0x38 case 7 => 0xF5 case 8 => 0xBC case 9 => 0xB6 case 10 => 0xDA case 11 => 0x21
              case 12 => 0x10 case 13 => 0xFF case 14 => 0xF3 case _ => 0xD2)
    case 0x8 =>
      (match c case 0 => 0xCD case 1 => 0x0C case 2 => 0x13 case 3 => 0xEC case 4 => 0x5F case 5 => 0x97
              case 6 => 0x44 case 7 => 0x17 case 8 => 0xC4 case 9 => 0xA7 case 10 => 0x7E case 11 => 0x3D
              case 12 => 0x64 case 13 => 0x5D case 14 => 0x19 case _ => 0x73)
    case 0x9 =>
      (match c case 0 => 0x60 case 1 => 0x81 case 2 => 0x4F case 3 => 0xDC case 4 => 0x22 case 5 => 0x2A
              case 6 => 0x90 case 7 => 0x88 case 8 => 0x46 case 9 => 0xEE case 10 => 0xB8 case 11 => 0x14
              case 12 => 0xDE case 13 => 0x5E case 14 => 0x0B case _ => 0xDB)
    case 0xA =>
      (match c case 0 => 0xE0 case 1 => 0x32 case 2 => 0x3A case 3 => 0x0A case 4 => 0x49 case 5 => 0x06
              case 6 => 0x24 case 7 => 0x5C case 8 => 0xC2 case 9 => 0xD3 case 10 => 0xAC case 11 => 0x62
              case 12 => 0x91 case 13 => 0x95 case 14 => 0xE4 case _ => 0x79)
    case 0xB =>
      (match c case 0 => 0xE7 case 1 => 0xC8 case 2 => 0x37 case 3 => 0x6D case 4 => 0x8D case 5 => 0xD5
              case 6 => 0x4E case 7 => 0xA9 case 8 => 0x6C case 9 => 0x56 case 10 => 0xF4 case 11 => 0xEA
              case 12 => 0x65 case 13 => 0x7A case 14 => 0xAE case _ => 0x08)
    case 0xC =>
      (match c case 0 => 0xBA case 1 => 0x78 case 2 => 0x25 case 3 => 0x2E case 4 => 0x1C case 5 => 0xA6
              case 6 => 0xB4 case 7 => 0xC6 case 8 => 0xE8 case 9 => 0xDD case 10 => 0x74 case 11 => 0x1F
              case 12 => 0x4B case 13 => 0xBD case 14 => 0x8B case _ => 0x8A)
    case 0xD =>
      (match c case 0 => 0x70 case 1 => 0x3E case 2 => 0xB5 case 3 => 0x66 case 4 => 0x48 case 5 => 0x03
              case 6 => 0xF6 case 7 => 0x0E case 8 => 0x61 case 9 => 0x35 case 10 => 0x57 case 11 => 0xB9
              case 12 => 0x86 case 13 => 0xC1 case 14 => 0x1D case _ => 0x9E)
    case 0xE =>
      (match c case 0 => 0xE1 case 1 => 0xF8 case 2 => 0x98 case 3 => 0x11 case 4 => 0x69 case 5 => 0xD9
              case 6 => 0x8E case 7 => 0x94 case 8 => 0x9B case 9 => 0x1E case 10 => 0x87 case 11 => 0xE9
              case 12 => 0xCE case 13 => 0x55 case 14 => 0x28 case _ => 0xDF)
    case _ =>
      (match c case 0 => 0x8C case 1 => 0xA1 case 2 => 0x89 case 3 => 0x0D case 4 => 0xBF case 5 => 0xE6
              case 6 => 0x42 case 7 => 0x68 case 8 => 0x41 case 9 => 0x99 case 10 => 0x2D case 11 => 0x0F
              case 12 => 0xB0 case 13 => 0x54 case 14 => 0xBB case _ => 0x16)
  }

  // aes_invsbox
  function InvSbox(x: bv8): bv8 {
    var c := x & 0x0F;
    match x >> 4
    case 0x0 =>
      (match c case 0 => 0x52 case 1 => 0x09 case 2 => 0x6A case 3 => 0xD5 case 4 => 0x30 case 5 => 0x36
              case 6 => 0xA5 case 7 => 0x38 case 8 => 0xBF case 9 => 0x40 case 10 => 0xA3 case 11 => 0x9E
              case 12 => 0x81 case 13 => 0xF3 case 14 => 0xD7 case _ => 0xFB)
    case 0x1 =>
      (match c case 0 => 0x7C case 1 => 0xE3 case 2 => 0x39 case 3 => 0x82 case 4 => 0x9B case 5 => 0x2F
              case 6 => 0xFF case 7 => 0x87 case 8 => 0x34 case 9 => 0x8E case 10 => 0x43 case 11 => 0x44
              case 12 => 0xC4 case 13 => 0xDE case 14 => 0xE9 case _ => 0xCB)
    case 0x2 =>
      (match c case 0 => 0x54 case 1 => 0x7B case 2 => 0x94 case 3 => 0x32 case 4 => 0xA6 case 5 => 0xC2
              case 6 => 0x23 case 7 => 0x3D case 8 => 0xEE case 9 => 0x4C case 10 => 0x95 case 11 => 0x0B
              case 12 => 0x42 case 13 => 0xFA case 14 => 0xC3 case _ => 0x4E)
    case 0x3 =>
      (match c case 0 => 0x08 case 1 => 0x2E case 2 => 0xA1 case 3 => 0x66 case 4 => 0x28 case 5 => 0xD9
              case 6 => 0x24 case 7 => 0xB2 case 8 => 0x76 case 9 => 0x5B case 10 => 0xA2 case 11 => 0x49
              case 12 => 0x6D case 13 => 0x8B case 14 => 0xD1 case _ => 0x25)
    case 0x4 =>
      (match c case 0 => 0x72 case 1 => 0xF8 case 2 => 0xF6 case 3 => 0x64 case 4 => 0x86 case 5 => 0x68
              case 6 => 0x98 case 7 => 0x16 case 8 => 0xD4 case 9 => 0xA4 case 10 => 0x5C case 11 => 0xCC
              case 12 => 0x5D case 13 => 0x65 case 14 => 0xB6 case _ => 0x92)
    case 0x5 =>
      (match c case 0 => 0x6C case 1 => 0x70 case 2 => 0x48 case 3 => 0x50 case 4 => 0xFD case 5 => 0xED
              case 6 => 0xB9 case 7 => 0xDA case 8 => 0x5E case 9 => 0x15 case 10 => 0x46 case 11 => 0x57
              case 12 => 0xA7 case 13 => 0x8D case 14 => 0x9D case _ => 0x84)
    case 0x6 =>
      (match c case 0 => 0x90 case 1 => 0xD8 case 2 => 0xAB case 3 => 0x00 case 4 => 0x8C case 5 => 0xBC
              case 6 => 0xD3 case 7 => 0x0A case 8 => 0xF7 case 9 => 0xE4 case 10 => 0x58 case 11 => 0x05
              case 12 => 0xB8 case 13 => 0xB3 case 14 => 0x45 case _ => 0x06)
    case 0x7 =>
      (match c case 0 => 0xD0 case 1 => 0x2C case 2 => 0x1E case 3 => 0x8F case 4 => 0xCA case 5 => 0x3F
              case 6 => 0x0F case 7 => 0x02 case 8 => 0xC1 case 9 => 0xAF case 10 => 0xBD case 11 => 0x03
              case 12 => 0x01 case 13 => 0x13 case 14 => 0x8A case _ => 0x6B)
    case 0x8 =>
      (match c case 0 => 0x3A case 1 => 0x91 case 2 => 0x11 case 3 => 0x41 case 4 => 0x4F case 5 => 0x67
              case 6 => 0xDC case 7 => 0xEA case 8 => 0x97 case 9 => 0xF2 case 10 => 0xCF case 11 => 0xCE
              case 12 => 0xF0 case 13 => 0xB4 case 14 => 0xE6 case _ => 0x73)
    case 0x9 =>
      (match c case 0 => 0x96 case 1 => 0xAC case 2 => 0x74 case 3 => 0x22 case 4 => 0xE7 case 5 => 0xAD
              case 6 => 0x35 case 7 => 0x85 case 8 => 0xE2 case 9 => 0xF9 case 10 => 0x37 case 11 => 0xE8
              case 12 => 0x1C case 13 => 0x75 case 14 => 0xDF case _ => 0x6E)
    case 0xA =>
      (match c case 0 => 0x47 case 1 => 0xF1 case 2 => 0x1A case 3 => 0x71 case 4 => 0x1D case 5 => 0x29
              case 6 => 0xC5 case 7 => 0x89 case 8 => 0x6F case 9 => 0xB7 case 10 => 0x62 case 11 => 0x0E
              case 12 => 0xAA case 13 => 0x18 case 14 => 0xBE case _ => 0x1B)
    case 0xB =>
      (match c case 0 => 0xFC case 1 => 0x56 case 2 => 0x3E case 3 => 0x4B case 4 => 0xC6 case 5 => 0xD2
              case 6 => 0x79 case 7 => 0x20 case 8 => 0x9A case 9 => 0xDB case 10 => 0xC0 case 11 => 0xFE
              case 12 => 0x78 case 13 => 0xCD case 14 => 0x5A case _ => 0xF4)
    case 0xC =>
      (match c case 0 => 0x1F case 1 => 0xDD case 2 => 0xA8 case 3 => 0x33 case 4 => 0x88 case 5 => 0x07
              case 6 => 0xC7 case 7 => 0x31 case 8 => 0xB1 case 9 => 0x12 case 10 => 0x10 case 11 => 0x59
              case 12 => 0x27 case 13 => 0x80 case 14 => 0xEC case _ => 0x5F)
    case 0xD =>
      (match c case 0 => 0x60 case 1 => 0x51 case 2 => 0x7F case 3 => 0xA9 case 4 => 0x19 case 5 => 0xB5
              case 6 => 0x4A case 7 => 0x0D case 8 => 0x2D case 9 => 0xE5 case 10 => 0x7A case 11 => 0x9F
              case 12 => 0x93 case 13 => 0xC9 case 14 => 0x9C case _ => 0xEF)
    case 0xE =>
      (match c case 0 => 0xA0 case 1 => 0xE0 case 2 => 0x3B case 3 => 0x4D case 4 => 0xAE case 5 => 0x2A
              case 6 => 0xF5 case 7 => 0xB0 case 8 => 0xC8 case 9 => 0xEB case 10 => 0xBB case 11 => 0x3C
              case 12 => 0x83 case 13 => 0x53 case 14 => 0x99 case _ => 0x61)
    case _ =>
      (match c case 0 => 0x17 case 1 => 0x2B case 2 => 0x04 case 3 => 0x7E case 4 => 0xBA case 5 => 0x77
              case 6 => 0xD6 case 7 => 0x26 case 8 => 0xE1 case 9 => 0x69 case 10 => 0x14 case 11 => 0x63
              case 12 => 0x55 case 13 => 0x21 case 14 => 0x0C case _ => 0x7D)
  }

  // gf_mul[x][0]
  function Gf2(x: bv8): bv8 {
    var c := x & 0x0F;
    match x >> 4
    case 0x0 =>
      (match c case 0 => 0x00 case 1 => 0x02 case 2 => 0x04 case 3 => 0x06 case 4 => 0x08 case 5 => 0x0A
              case 6 => 0x0C case 7 => 0x0E case 8 => 0x10 case 9 => 0x12 case 10 => 0x14 case 11 => 0x16
              case 12 => 0x18 case 13 => 0x1A case 14 => 0x1C case _ => 0x1E)
    case 0x1 =>
      (match c case 0 => 0x20 case 1 => 0x22 case 2 => 0x24 case 3 => 0x26 case 4 => 0x28 case 5 => 0x2A
              case 6 => 0x2C case 7 => 0x2E case 8 => 0x30 case 9 => 0x32 case 10 => 0x34 case 11 => 0x36
              case 12 => 0x38 case 13 => 0x3A case 14 => 0x3C case _ => 0x3E)
    case 0x2 =>
      (match c case 0 => 0x40 case 1 => 0x42 case 2 => 0x44 case 3 => 0x46 case 4 => 0x48 case 5 => 0x4A
              case 6 => 0x4C case 7 => 0x4E case 8 => 0x50 case 9 => 0x52 case 10 => 0x54 case 11 => 0x56
              case 12 => 0x58 case 13 => 0x5A case 14 => 0x5C case _ => 0x5E)
    case 0x3 =>
      (match c case 0 => 0x60 case 1 => 0x62 case 2 => 0x64 case 3 => 0x66 case 4 => 0x68 case 5 => 0x6A
              case 6 => 0x6C case 7 => 0x6E case 8 => 0x70 case 9 => 0x72 case 10 => 0x74 case 11 => 0x76
              case 12 => 0x78 case 13 => 0x7A case 14 => 0x7C case _ => 0x7E)
    case 0x4 =>
      (match c case 0 => 0x80 case 1 => 0x82 case 2 => 0x84 case 3 => 0x86 case 4 => 0x88 case 5 => 0x8A
              case 6 => 0x8C case 7 => 0x8E case 8 => 0x90 case 9 => 0x92 case 10 => 0x94 case 11 => 0x96
              case 12 => 0x98 case 13 => 0x9A case 14 => 0x9C case _ => 0x9E)
    case 0x5 =>
      (match c case 0 => 0xA0 case 1 => 0xA2 case 2 => 0xA4 case 3 => 0xA6 case 4 => 0xA8 case 5 => 0xAA
              case 6 => 0xAC case 7 => 0xAE case 8 => 0xB0 case 9 => 0xB2 case 10 => 0xB4 case 11 => 0xB6
              case 12 => 0xB8 case 13 => 0xBA case 14 => 0xBC case _ => 0xBE)
    case 0x6 =>
      (match c case 0 => 0xC0 case 1 => 0xC2 case 2 => 0xC4 case 3 => 0xC6 case 4 => 0xC8 case 5 => 0xCA
              case 6 => 0xCC case 7 => 0xCE case 8 => 0xD0 case 9 => 0xD2 case 10 => 0xD4 case 11 => 0xD6
              case 12 => 0xD8 case 13 => 0xDA case 14 => 0xDC case _ => 0xDE)
    case 0x7 =>
      (match c case 0 => 0xE0 case 1 => 0xE2 case 2 => 0xE4 case 3 => 0xE6 case 4 => 0xE8 case 5 => 0xEA
              case 6 => 0xEC case 7 => 0xEE case 8 => 0xF0 case 9 => 0xF2 case 10 => 0xF4 case 11 => 0xF6
              case 12 => 0xF8 case 13 => 0xFA case 14 => 0xFC case _ => 0xFE)
    case 0x8 =>
      (match c case 0 => 0x1B case 1 => 0x19 case 2 => 0x1F case 3 => 0x1D case 4 => 0x13 case 5 => 0x11
              case 6 => 0x17 case 7 => 0x15 case 8 => 0x0B case 9 => 0x09 case 10 => 0x0F case 11 => 0x0D
              case 12 => 0x03 case 13 => 0x01 case 14 => 0x07 case _ => 0x05)
    case 0x9 =>
      (match c case 0 => 0x3B case 1 => 0x39 case 2 => 0x3F case 3 => 0x3D case 4 => 0x33 case 5 => 0x31
              case 6 => 0x37 case 7 => 0x35 case 8 => 0x2B case 9 => 0x29 case 10 => 0x2F case 11 => 0x2D
              case 12 => 0x23 case 13 => 0x21 case 14 => 0x27 case _ => 0x25)
    case 0xA =>
      (match c case 0 => 0x5B case 1 => 0x59 case 2 => 0x5F case 3 => 0x5D case 4 => 0x53 case 5 => 0x51
              case 6 => 0x57 case 7 => 0x55 case 8 => 0x4B case 9 => 0x49 case 10 => 0x4F case 11 => 0x4D
              case 12 => 0x43 case 13 => 0x41 case 14 => 0x47 case _ => 0x45)
    case 0xB =>
      (match c case 0 => 0x7B case 1 => 0x79 case 2 => 0x7F case 3 => 0x7D case 4 => 0x73 case 5 => 0x71
              case 6 => 0x77 case 7 => 0x75 case 8 => 0x6B case 9 => 0x69 case 10 => 0x6F case 11 => 0x6D
              case 12 => 0x63 case 13 => 0x61 case 14 => 0x67 case _ => 0x65)
    case 0xC =>
      (match c case 0 => 0x9B case 1 => 0x99 case 2 => 0x9F case 3 => 0x9D case 4 => 0x93 case 5 => 0x91
              case 6 => 0x97 case 7 => 0x95 case 8 => 0x8B case 9 => 0x89 case 10 => 0x8F case 11 => 0x8D
              case 12 => 0x83 case 13 => 0x81 case 14 => 0x87 case _ => 0x85)
    case 0xD =>
      (match c case 0 => 0xBB case 1 => 0xB9 case 2 => 0xBF case 3 => 0xBD case 4 => 0xB3 case 5 => 0xB1
              case 6 => 0xB7 case 7 => 0xB5 case 8 => 0xAB case 9 => 0xA9 case 10 => 0xAF case 11 => 0xAD
              case 12 => 0xA3 case 13 => 0xA1 case 14 => 0xA7 case _ => 0xA5)
    case 0xE =>
      (match c case 0 => 0xDB case 1 => 0xD9 case 2 => 0xDF case 3 => 0xDD case 4 => 0xD3 case 5 => 0xD1
              case 6 => 0xD7 case 7 => 0xD5 case 8 => 0xCB case 9 => 0xC9 case 10 => 0xCF case 11 => 0xCD
              case 12 => 0xC3 case 13 => 0xC1 case 14 => 0xC7 case _ => 0xC5)
    case _ =>
      (match c case 0 => 0xFB case 1 => 0xF9 case 2 => 0xFF case 3 => 0xFD case 4 => 0xF3 case 5 => 0xF1
              case 6 => 0xF7 case 7 => 0xF5 case 8 => 0xEB case 9 => 0xE9 case 10 => 0xEF case 11 => 0xED
              case 12 => 0xE3 case 13 => 0xE1 case 14 => 0xE7 case _ => 0xE5)
  }

  // gf_mul[x][1]
  function Gf3(x: bv8): bv8 {
    var c := x & 0x0F;
    match x >> 4
    case 0x0 =>
      (match c case 0 => 0x00 case 1 => 0x03 case 2 => 0x06 case 3 => 0x05 case 4 => 0x0C case 5 => 0x0F
              case 6 => 0x0A case 7 => 0x09 case 8 => 0x18 case 9 => 0x1B case 10 => 0x1E case 11 => 0x1D
              case 12 => 0x14 case 13 => 0x17 case 14 => 0x12 case _ => 0x11)
    case 0x1 =>
      (match c case 0 => 0x30 case 1 => 0x33 case 2 => 0x36 case 3 => 0x35 case 4 => 0x3C case 5 => 0x3F
              case 6 => 0x3A case 7 => 0x39 case 8 => 0x28 case 9 => 0x2B case 10 => 0x2E case 11 => 0x2D
              case 12 => 0x24 case 13 => 0x27 case 14 => 0x22 case _ => 0x21)
    case 0x2 =>
      (match c case 0 => 0x60 case 1 => 0x63 case 2 => 0x66 case 3 => 0x65 case 4 => 0x6C case 5 => 0x6F
              case 6 => 0x6A case 7 => 0x69 case 8 => 0x78 case 9 => 0x7B case 10 => 0x7E case 11 => 0x7D
              case 12 => 0x74 case 13 => 0x77 case 14 => 0x72 case _ => 0x71)
    case 0x3 =>
      (match c case 0 => 0x50 case 1 => 0x53 case 2 => 0x56 case 3 => 0x55 case 4 => 0x5C case 5 => 0x5F
              case 6 => 0x5A case 7 => 0x59 case 8 => 0x48 case 9 => 0x4B case 10 => 0x4E case 11 => 0x4D
              case 12 => 0x44 case 13 => 0x47 case 14 => 0x42 case _ => 0x41)
    case 0x4 =>
      (match c case 0 => 0xC0 case 1 => 0xC3 case 2 => 0xC6 case 3 => 0xC5 case 4 => 0xCC case 5 => 0xCF
              case 6 => 0xCA case 7 => 0xC9 case 8 => 0xD8 case 9 => 0xDB case 10 => 0xDE case 11 => 0xDD
              case 12 => 0xD4 case 13 => 0xD7 case 14 => 0xD2 case _ => 0xD1)
    case 0x5 =>
      (match c case 0 => 0xF0 case 1 => 0xF3 case 2 => 0xF6 case 3 => 0xF5 case 4 => 0xFC case 5 => 0xFF
              case 6 => 0xFA case 7 => 0xF9 case 8 => 0xE8 case 9 => 0xEB case 10 => 0xEE case 11 => 0xED
              case 12 => 0xE4 case 13 => 0xE7 case 14 => 0xE2 case _ => 0xE1)
    case 0x6 =>
      (match c case 0 => 0xA0 case 1 => 0xA3 case 2 => 0xA6 case 3 => 0xA5 case 4 => 0xAC case 5 => 0xAF
              case 6 => 0xAA case 7 => 0xA9 case 8 => 0xB8 case 9 => 0xBB case 10 => 0xBE case 11 => 0xBD
              case 12 => 0xB4 case 13 => 0xB7 case 14 => 0xB2 case _ => 0xB1)
    case 0x7 =>
      (match c case 0 => 0x90 case 1 => 0x93 case 2 => 0x96 case 3 => 0x95 case 4 => 0x9C case 5 => 0x9F
              case 6 => 0x9A case 7 => 0x99 case 8 => 0x88 case 9 => 0x8B case 10 => 0x8E case 11 => 0x8D
              case 12 => 0x84 case 13 => 0x87 case 14 => 0x82 case _ => 0x81)
    case 0x8 =>
      (match c case 0 => 0x9B case 1 => 0x98 case 2 => 0x9D case 3 => 0x9E case 4 => 0x97 case 5 => 0x94
              case 6 => 0x91 case 7 => 0x92 case 8 => 0x83 case 9 => 0x80 case 10 => 0x85 case 11 => 0x86
              case 12 => 0x8F case 13 => 0x8C case 14 => 0x89 case _ => 0x8A)
    case 0x9 =>
      (match c case 0 => 0xAB case 1 => 0xA8 case 2 => 0xAD case 3 => 0xAE case 4 => 0xA7 case 5 => 0xA4
              case 6 => 0xA1 case 7 => 0xA2 case 8 => 0xB3 case 9 => 0xB0 case 10 => 0xB5 case 11 => 0xB6
              case 12 => 0xBF case 13 => 0xBC case 14 => 0xB9 case _ => 0xBA)
    case 0xA =>
      (match c case 0 => 0xFB case 1 => 0xF8 case 2 => 0xFD case 3 => 0xFE case 4 => 0xF7 case 5 => 0xF4
              case 6 => 0xF1 case 7 => 0xF2 case 8 => 0xE3 case 9 => 0xE0 case 10 => 0xE5 case 11 => 0xE6
              case 12 => 0xEF case 13 => 0xEC case 14 => 0xE9 case _ => 0xEA)
    case 0xB =>
      (match c case 0 => 0xCB case 1 => 0xC8 case 2 => 0xCD case 3 => 0xCE case 4 => 0xC7 case 5 => 0xC4
              case 6 => 0xC1 case 7 => 0xC2 case 8 => 0xD3 case 9 => 0xD0 case 10 => 0xD5 case 11 => 0xD6
              case 12 => 0xDF case 13 => 0xDC case 14 => 0xD9 case _ => 0xDA)
    case 0xC =>
      (match c case 0 => 0x5B case 1 => 0x58 case 2 => 0x5D case 3 => 0x5E case 4 => 0x57 case 5 => 0x54
              case 6 => 0x51 case 7 => 0x52 case 8 => 0x43 case 9 => 0x40 case 10 => 0x45 case 11 => 0x46
              case 12 => 0x4F case 13 => 0x4C case 14 => 0x49 case _ => 0x4A)
    case 0xD =>
      (match c case 0 => 0x6B case 1 => 0x68 case 2 => 0x6D case 3 => 0x6E case 4 => 0x67 case 5 => 0x64
              case 6 => 0x61 case 7 => 0x62 case 8 => 0x73 case 9 => 0x70 case 10 => 0x75 case 11 => 0x76
              case 12 => 0x7F case 13 => 0x7C case 14 => 0x79 case _ => 0x7A)
    case 0xE =>
      (match c case 0 => 0x3B case 1 => 0x38 case 2 => 0x3D case 3 => 0x3E case 4 => 0x37 case 5 => 0x34
              case 6 => 0x31 case 7 => 0x32 case 8 => 0x23 case 9 => 0x20 case 10 => 0x25 case 11 => 0x26
              case 12 => 0x2F case 13 => 0x2C case 14 => 0x29 case _ => 0x2A)
    case _ =>
      (match c case 0 => 0x0B case 1 => 0x08 case 2 => 0x0D case 3 => 0x0E case 4 => 0x07 case 5 => 0x04
              case 6 => 0x01 case 7 => 0x02 case 8 => 0x13 case 9 => 0x10 case 10 => 0x15 case 11 => 0x16
              case 12 => 0x1F case 13 => 0x1C case 14 => 0x19 case _ => 0x1A)
  }

  // gf_mul[x][2]
  function Gf9(x: bv8): bv8 {
    var c := x & 0x0F;
    match x >> 4
    case 0x0 =>
      (match c case 0 => 0x00 case 1 => 0x09 case 2 => 0x12 case 3 => 0x1B case 4 => 0x24 case 5 => 0x2D
              case 6 => 0x36 case 7 => 0x3F case 8 => 0x48 case 9 => 0x41 case 10 => 0x5A case 11 => 0x53
              case 12 => 0x6C case 13 => 0x65 case 14 => 0x7E case _ => 0x77)
    case 0x1 =>
      (match c case 0 => 0x90 case 1 => 0x99 case 2 => 0x82 case 3 => 0x8B case 4 => 0xB4 case 5 => 0xBD
              case 6 => 0xA6 case 7 => 0xAF case 8 => 0xD8 case 9 => 0xD1 case 10 => 0xCA case 11 => 0xC3
              case 12 => 0xFC case 13 => 0xF5 case 14 => 0xEE case _ => 0xE7)
    case 0x2 =>
      (match c case 0 => 0x3B case 1 => 0x32 case 2 => 0x29 case 3 => 0x20 case 4 => 0x1F case 5 => 0x16
              case 6 => 0x0D case 7 => 0x04 case 8 => 0x73 case 9 => 0x7A case 10 => 0x61 case 11 => 0x68
              case 12 => 0x57 case 13 => 0x5E case 14 => 0x45 case _ => 0x4C)
    case 0x3 =>
      (match c case 0 => 0xAB case 1 => 0xA2 case 2 => 0xB9 case 3 => 0xB0 case 4 => 0x8F case 5 => 0x86
              case 6 => 0x9D case 7 => 0x94 case 8 => 0xE3 case 9 => 0xEA case 10 => 0xF1 case 11 => 0xF8
              case 12 => 0xC7 case 13 => 0xCE case 14 => 0xD5 case _ => 0xDC)
    case 0x4 =>
      (match c case 0 => 0x76 case 1 => 0x7F case 2 => 0x64 case 3 => 0x6D case 4 => 0x52 case 5 => 0x5B
              case 6 => 0x40 case 7 => 0x49 case 8 => 0x3E case 9 => 0x37 case 10 => 0x2C case 11 => 0x25
              case 12 => 0x1A case 13 => 0x13 case 14 => 0x08 case _ => 0x01)
    case 0x5 =>
      (match c case 0 => 0xE6 case 1 => 0xEF case 2 => 0xF4 case 3 => 0xFD case 4 => 0xC2 case 5 => 0xCB
              case 6 => 0xD0 case 7 => 0xD9 case 8 => 0xAE case 9 => 0xA7 case 10 => 0xBC case 11 => 0xB5
              case 12 => 0x8A case 13 => 0x83 case 14 => 0x98 case _ => 0x91)
    case 0x6 =>
      (match c case 0 => 0x4D case 1 => 0x44 case 2 => 0x5F case 3 => 0x56 case 4 => 0x69 case 5 => 0x60
              case 6 => 0x7B case 7 => 0x72 case 8 => 0x05 case 9 => 0x0C case 10 => 0x17 case 11 => 0x1E
              case 12 => 0x21 case 13 => 0x28 case 14 => 0x33 case _ => 0x3A)
    case 0x7 =>
      (match c case 0 => 0xDD case 1 => 0xD4 case 2 => 0xCF case 3 => 0xC6 case 4 => 0xF9 case 5 => 0xF0
              case 6 => 0xEB case 7 => 0xE2 case 8 => 0x95 case 9 => 0x9C case 10 => 0x87 case 11 => 0x8E
              case 12 => 0xB1 case 13 => 0xB8 case 14 => 0xA3 case _ => 0xAA)
    case 0x8 =>
      (match c case 0 => 0xEC case 1 => 0xE5 case 2 => 0xFE case 3 => 0xF7 case 4 => 0xC8 case 5 => 0xC1
              case 6 => 0xDA case 7 => 0xD3 case 8 => 0xA4 case 9 => 0xAD case 10 => 0xB6 case 11 => 0xBF
              case 12 => 0x80 case 13 => 0x89 case 14 => 0x92 case _ => 0x9B)
    case 0x9 =>
      (match c case 0 => 0x7C case 1 => 0x75 case 2 => 0x6E case 3 => 0x67 case 4 => 0x58 case 5 => 0x51
              case 6 => 0x4A case 7 => 0x43 case 8 => 0x34 case 9 => 0x3D case 10 => 0x26 case 11 => 0x2F
              case 12 => 0x10 case 13 => 0x19 case 14 => 0x02 case _ => 0x0B)
    case 0xA =>
      (match c case 0 => 0xD7 case 1 => 0xDE case 2 => 0xC5 case 3 => 0xCC case 4 => 0xF3 case 5 => 0xFA
              case 6 => 0xE1 case 7 => 0xE8 case 8 => 0x9F case 9 => 0x96 case 10 => 0x8D case 11 => 0x84
              case 12 => 0xBB case 13 => 0xB2 case 14 => 0xA9 case _ => 0xA0)
    case 0xB =>
      (match c case 0 => 0x47 case 1 => 0x4E case 2 => 0x55 case 3 => 0x5C case 4 => 0x63 case 5 => 0x6A
              case 6 => 0x71 case 7 => 0x78 case 8 => 0x0F case 9 => 0x06 case 10 => 0x1D case 11 => 0x14
              case 12 => 0x2B case 13 => 0x22 case 14 => 0x39 case _ => 0x30)
    case 0xC =>
      (match c case 0 => 0x9A case 1 => 0x93 case 2 => 0x88 case 3 => 0x81 case 4 => 0xBE case 5 => 0xB7
              case 6 => 0xAC case 7 => 0xA5 case 8 => 0xD2 case 9 => 0xDB case 10 => 0xC0 case 11 => 0xC9
              case 12 => 0xF6 case 13 => 0xFF case 14 => 0xE4 case _ => 0xED)
    case 0xD =>
      (match c case 0 => 0x0A case 1 => 0x03 case 2 => 0x18 case 3 => 0x11 case 4 => 0x2E case 5 => 0x27
              case 6 => 0x3C case 7 => 0x35 case 8 => 0x42 case 9 => 0x4B case 10 => 0x50 case 11 => 0x59
              case 12 => 0x66 case 13 => 0x6F case 14 => 0x74 case _ => 0x7D)
    case 0xE =>
      (match c case 0 => 0xA1 case 1 => 0xA8 case 2 => 0xB3 case 3 => 0xBA case 4 => 0x85 case 5 => 0x8C
              case 6 => 0x97 case 7 => 0x9E case 8 => 0xE9 case 9 => 0xE0 case 10 => 0xFB case 11 => 0xF2
              case 12 => 0xCD case 13 => 0xC4 case 14 => 0xDF case _ => 0xD6)
    case _ =>
      (match c case 0 => 0x31 case 1 => 0x38 case 2 => 0x23 case 3 => 0x2A case 4 => 0x15 case 5 => 0x1C
              case 6 => 0x07 case 7 => 0x0E case 8 => 0x79 case 9 => 0x70 case 10 => 0x6B case 11 => 0x62
              case 12 => 0x5D case 13 => 0x54 case 14 => 0x4F case _ => 0x46)
  }

  // gf_mul[x][3]
  function Gf11(x: bv8): bv8 {
    var c := x & 0x0F;
    match x >> 4
    case 0x0 =>
      (match c case 0 => 0x00 case 1 => 0x0B case 2 => 0x16 case 3 => 0x1D case 4 => 0x2C case 5 => 0x27
              case 6 => 0x3A case 7 => 0x31 case 8 => 0x58 case 9 => 0x53 case 10 => 0x4E case 11 => 0x45
              case 12 => 0x74 case 13 => 0x7F case 14 => 0x62 case _ => 0x69)
    case 0x1 =>
      (match c case 0 => 0xB0 case 1 => 0xBB case 2 => 0xA6 case 3 => 0xAD case 4 => 0x9C case 5 => 0x97
              case 6 => 0x8A case 7 => 0x81 case 8 => 0xE8 case 9 => 0xE3 case 10 => 0xFE case 11 => 0xF5
              case 12 => 0xC4 case 13 => 0xCF case 14 => 0xD2 case _ => 0xD9)
    case 0x2 =>
      (match c case 0 => 0x7B case 1 => 0x70 case 2 => 0x6D case 3 => 0x66 case 4 => 0x57 case 5 => 0x5C
              case 6 => 0x41 case 7 => 0x4A case 8 => 0x23 case 9 => 0x28 case 10 => 0x35 case 11 => 0x3E
              case 12 => 0x0F case 13 => 0x04 case 14 => 0x19 case _ => 0x12)
    case 0x3 =>
      (match c case 0 => 0xCB case 1 => 0xC0 case 2 => 0xDD case 3 => 0xD6 case 4 => 0xE7 case 5 => 0xEC
              case 6 => 0xF1 case 7 => 0xFA case 8 => 0x93 case 9 => 0x98 case 10 => 0x85 case 11 => 0x8E
              case 12 => 0xBF case 13 => 0xB4 case 14 => 0xA9 case _ => 0xA2)
    case 0x4 =>
      (match c case 0 => 0xF6 case 1 => 0xFD case 2 => 0xE0 case 3 => 0xEB case 4 => 0xDA case 5 => 0xD1
              case 6 => 0xCC case 7 => 0xC7 case 8 => 0xAE case 9 => 0xA5 case 10 => 0xB8 case 11 => 0xB3
              case 12 => 0x82 case 13 => 0x89 case 14 => 0x94 case _ => 0x9F)
    case 0x5 =>
      (match c case 0 => 0x46 case 1 => 0x4D case 2 => 0x50 case 3 => 0x5B case 4 => 0x6A case 5 => 0x61
              case 6 => 0x7C case 7 => 0x77 case 8 => 0x1E case 9 => 0x15 case 10 => 0x08 case 11 => 0x03
              case 12 => 0x32 case 13 => 0x39 case 14 => 0x24 case _ => 0x2F)
    case 0x6 =>
      (match c case 0 => 0x8D case 1 => 0x86 case 2 => 0x9B case 3 => 0x90 case 4 => 0xA1 case 5 => 0xAA
              case 6 => 0xB7 case 7 => 0xBC case 8 => 0xD5 case 9 => 0xDE case 10 => 0xC3 case 11 => 0xC8
              case 12 => 0xF9 case 13 => 0xF2 case 14 => 0xEF case _ => 0xE4)
    case 0x7 =>
      (match c case 0 => 0x3D case 1 => 0x36 case 2 => 0x2B case 3 => 0x20 case 4 => 0x11 case 5 => 0x1A
              case 6 => 0x07 case 7 => 0x0C case 8 => 0x65 case 9 => 0x6E case 10 => 0x73 case 11 => 0x78
              case 12 => 0x49 case 13 => 0x42 case 14 => 0x5F case _ => 0x54)
    case 0x8 =>
      (match c case 0 => 0xF7 case 1 => 0xFC case 2 => 0xE1 case 3 => 0xEA case 4 => 0xDB case 5 => 0xD0
              case 6 => 0xCD case 7 => 0xC6 case 8 => 0xAF case 9 => 0xA4 case 10 => 0xB9 case 11 => 0xB2
              case 12 => 0x83 case 13 => 0x88 case 14 => 0x95 case _ => 0x9E)
    case 0x9 =>
      (match c case 0 => 0x47 case 1 => 0x4C case 2 => 0x51 case 3 => 0x5A case 4 => 0x6B case 5 => 0x60
              case 6 => 0x7D case 7 => 0x76 case 8 => 0x1F case 9 => 0x14 case 10 => 0x09 case 11 => 0x02
              case 12 => 0x33 case 13 => 0x38 case 14 => 0x25 case _ => 0x2E)
    case 0xA =>
      (match c case 0 => 0x8C case 1 => 0x87 case 2 => 0x9A case 3 => 0x91 case 4 => 0xA0 case 5 => 0xAB
              case 6 => 0xB6 case 7 => 0xBD case 8 => 0xD4 case 9 => 0xDF case 10 => 0xC2 case 11 => 0xC9
              case 12 => 0xF8 case 13 => 0xF3 case 14 => 0xEE case _ => 0xE5)
    case 0xB =>
      (match c case 0 => 0x3C case 1 => 0x37 case 2 => 0x2A case 3 => 0x21 case 4 => 0x10 case 5 => 0x1B
              case 6 => 0x06 case 7 => 0x0D case 8 => 0x64 case 9 => 0x6F case 10 => 0x72 case 11 => 0x79
              case 12 => 0x48 case 13 => 0x43 case 14 => 0x5E case _ => 0x55)
    case 0xC =>
      (match c case 0 => 0x01 case 1 => 0x0A case 2 => 0x17 case 3 => 0x1C case 4 => 0x2D case 5 => 0x26
              case 6 => 0x3B case 7 => 0x30 case 8 => 0x59 case 9 => 0x52 case 10 => 0x4F case 11 => 0x44
              case 12 => 0x75 case 13 => 0x7E case 14 => 0x63 case _ => 0x68)
    case 0xD =>
      (match c case 0 => 0xB1 case 1 => 0xBA case 2 => 0xA7 case 3 => 0xAC case 4 => 0x9D case 5 => 0x96
              case 6 => 0x8B case 7 => 0x80 case 8 => 0xE9 case 9 => 0xE2 case 10 => 0xFF case 11 => 0xF4
              case 12 => 0xC5 case 13 => 0xCE case 14 => 0xD3 case _ => 0xD8)
    case 0xE =>
      (match c case 0 => 0x7A case 1 => 0x71 case 2 => 0x6C case 3 => 0x67 case 4 => 0x56 case 5 => 0x5D
              case 6 => 0x40 case 7 => 0x4B case 8 => 0x22 case 9 => 0x29 case 10 => 0x34 case 11 => 0x3F
              case 12 => 0x0E case 13 => 0x05 case 14 => 0x18 case _ => 0x13)
    case _ =>
      (match c case 0 => 0xCA case 1 => 0xC1 case 2 => 0xDC case 3 => 0xD7 case 4 => 0xE6 case 5 => 0xED
              case 6 => 0xF0 case 7 => 0xFB case 8 => 0x92 case 9 => 0x99 case 10 => 0x84 case 11 => 0x8F
              case 12 => 0xBE case 13 => 0xB5 case 14 => 0xA8 case _ => 0xA3)
  }

  // gf_mul[x][4]
  function Gf13(x: bv8): bv8 {
    var c := x & 0x0F;
    match x >> 4
    case 0x0 =>
      (match c case 0 => 0x00 case 1 => 0x0D case 2 => 0x1A case 3 => 0x17 case 4 => 0x34 case 5 => 0x39
              case 6 => 0x2E case 7 => 0x23 case 8 => 0x68 case 9 => 0x65 case 10 => 0x72 case 11 => 0x7F
              case 12 => 0x5C case 13 => 0x51 case 14 => 0x46 case _ => 0x4B)
    case 0x1 =>
      (match c case 0 => 0xD0 case 1 => 0xDD case 2 => 0xCA case 3 => 0xC7 case 4 => 0xE4 case 5 => 0xE9
              case 6 => 0xFE case 7 => 0xF3 case 8 => 0xB8 case 9 => 0xB5 case 10 => 0xA2 case 11 => 0xAF
              case 12 => 0x8C case 13 => 0x81 case 14 => 0x96 case _ => 0x9B)
    case 0x2 =>
      (match c case 0 => 0xBB case 1 => 0xB6 case 2 => 0xA1 case 3 => 0xAC case 4 => 0x8F case 5 => 0x82
              case 6 => 0x95 case 7 => 0x98 case 8 => 0xD3 case 9 => 0xDE case 10 => 0xC9 case 11 => 0xC4
              case 12 => 0xE7 case 13 => 0xEA case 14 => 0xFD case _ => 0xF0)
    case 0x3 =>
      (match c case 0 => 0x6B case 1 => 0x66 case 2 => 0x71 case 3 => 0x7C case 4 => 0x5F case 5 => 0x52
              case 6 => 0x45 case 7 => 0x48 case 8 => 0x03 case 9 => 0x0E case 10 => 0x19 case 11 => 0x14
              case 12 => 0x37 case 13 => 0x3A case 14 => 0x2D case _ => 0x20)
    case 0x4 =>
      (match c case 0 => 0x6D case 1 => 0x60 case 2 => 0x77 case 3 => 0x7A case 4 => 0x59 case 5 => 0x54
              case 6 => 0x43 case 7 => 0x4E case 8 => 0x05 case 9 => 0x08 case 10 => 0x1F case 11 => 0x12
              case 12 => 0x31 case 13 => 0x3C case 14 => 0x2B case _ => 0x26)
    case 0x5 =>
      (match c case 0 => 0xBD case 1 => 0xB0 case 2 => 0xA7 case 3 => 0xAA case 4 => 0x89 case 5 => 0x84
              case 6 => 0x93 case 7 => 0x9E case 8 => 0xD5 case 9 => 0xD8 case 10 => 0xCF case 11 => 0xC2
              case 12 => 0xE1 case 13 => 0xEC case 14 => 0xFB case _ => 0xF6)
    case 0x6 =>
      (match c case 0 => 0xD6 case 1 => 0xDB case 2 => 0xCC case 3 => 0xC1 case 4 => 0xE2 case 5 => 0xEF
              case 6 => 0xF8 case 7 => 0xF5 case 8 => 0xBE case 9 => 0xB3 case 10 => 0xA4 case 11 => 0xA9
              case 12 => 0x8A case 13 => 0x87 case 14 => 0x90 case _ => 0x9D)
    case 0x7 =>
      (match c case 0 => 0x06 case 1 => 0x0B case 2 => 0x1C case 3 => 0x11 case 4 => 0x32 case 5 => 0x3F
              case 6 => 0x28 case 7 => 0x25 case 8 => 0x6E case 9 => 0x63 case 10 => 0x74 case 11 => 0x79
              case 12 => 0x5A case 13 => 0x57 case 14 => 0x40 case _ => 0x4D)
    case 0x8 =>
      (match c case 0 => 0xDA case 1 => 0xD7 case 2 => 0xC0 case 3 => 0xCD case 4 => 0xEE case 5 => 0xE3
              case 6 => 0xF4 case 7 => 0xF9 case 8 => 0xB2 case 9 => 0xBF case 10 => 0xA8 case 11 => 0xA5
              case 12 => 0x86 case 13 => 0x8B case 14 => 0x9C case _ => 0x91)
    case 0x9 =>
      (match c case 0 => 0x0A case 1 => 0x07 case 2 => 0x10 case 3 => 0x1D case 4 => 0x3E case 5 => 0x33
              case 6 => 0x24 case 7 => 0x29 case 8 => 0x62 case 9 => 0x6F case 10 => 0x78 case 11 => 0x75
              case 12 => 0x56 case 13 => 0x5B case 14 => 0x4C case _ => 0x41)
    case 0xA =>
      (match c case 0 => 0x61 case 1 => 0x6C case 2 => 0x7B case 3 => 0x76 case 4 => 0x55 case 5 => 0x58
              case 6 => 0x4F case 7 => 0x42 case 8 => 0x09 case 9 => 0x04 case 10 => 0x13 case 11 => 0x1E
              case 12 => 0x3D case 13 => 0x30 case 14 => 0x27 case _ => 0x2A)
    case 0xB =>
      (match c case 0 => 0xB1 case 1 => 0xBC case 2 => 0xAB case 3 => 0xA6 case 4 => 0x85 case 5 => 0x88
              case 6 => 0x9F case 7 => 0x92 case 8 => 0xD9 case 9 => 0xD4 case 10 => 0xC3 case 11 => 0xCE
              case 12 => 0xED case 13 => 0xE0 case 14 => 0xF7 case _ => 0xFA)
    case 0xC =>
      (match c case 0 => 0xB7 case 1 => 0xBA case 2 => 0xAD case 3 => 0xA0 case 4 => 0x83 case 5 => 0x8E
              case 6 => 0x99 case 7 => 0x94 case 8 => 0xDF case 9 => 0xD2 case 10 => 0xC5 case 11 => 0xC8
              case 12 => 0xEB case 13 => 0xE6 case 14 => 0xF1 case _ => 0xFC)
    case 0xD =>
      (match c case 0 => 0x67 case 1 => 0x6A case 2 => 0x7D case 3 => 0x70 case 4 => 0x53 case 5 => 0x5E
              case 6 => 0x49 case 7 => 0x44 case 8 => 0x0F case 9 => 0x02 case 10 => 0x15 case 11 => 0x18
              case 12 => 0x3B case 13 => 0x36 case 14 => 0x21 case _ => 0x2C)
    case 0xE =>
      (match c case 0 => 0x0C case 1 => 0x01 case 2 => 0x16 case 3 => 0x1B case 4 => 0x38 case 5 => 0x35
              case 6 => 0x22 case 7 => 0x2F case 8 => 0x64 case 9 => 0x69 case 10 => 0x7E case 11 => 0x73
              case 12 => 0x50 case 13 => 0x5D case 14 => 0x4A case _ => 0x47)
    case _ =>
      (match c case 0 => 0xDC case 1 => 0xD1 case 2 => 0xC6 case 3 => 0xCB case 4 => 0xE8 case 5 => 0xE5
              case 6 => 0xF2 case 7 => 0xFF case 8 => 0xB4 case 9 => 0xB9 case 10 => 0xAE case 11 => 0xA3
              case 12 => 0x80 case 13 => 0x8D case 14 => 0x9A case _ => 0x97)
  }

  // gf_mul[x][5]
  function Gf14(x: bv8): bv8 {
    var c := x & 0x0F;
    match x >> 4
    case 0x0 =>
      (match c case 0 => 0x00 case 1 => 0x0E case 2 => 0x1C case 3 => 0x12 case 4 => 0x38 case 5 => 0x36
              case 6 => 0x24 case 7 => 0x2A case 8 => 0x70 case 9 => 0x7E case 10 => 0x6C case 11 => 0x62
              case 12 => 0x48 case 13 => 0x46 case 14 => 0x54 case _ => 0x5A)
    case 0x1 =>
      (match c case 0 => 0xE0 case 1 => 0xEE case 2 => 0xFC case 3 => 0xF2 case 4 => 0xD8 case 5 => 0xD6
              case 6 => 0xC4 case 7 => 0xCA case 8 => 0x90 case 9 => 0x9E case 10 => 0x8C case 11 => 0x82
              case 12 => 0xA8 case 13 => 0xA6 case 14 => 0xB4 case _ => 0xBA)
    case 0x2 =>
      (match c case 0 => 0xDB case 1 => 0xD5 case 2 => 0xC7 case 3 => 0xC9 case 4 => 0xE3 case 5 => 0xED
              case 6 => 0xFF case 7 => 0xF1 case 8 => 0xAB case 9 => 0xA5 case 10 => 0xB7 case 11 => 0xB9
              case 12 => 0x93 case 13 => 0x9D case 14 => 0x8F case _ => 0x81)
    case 0x3 =>
      (match c case 0 => 0x3B case 1 => 0x35 case 2 => 0x27 case 3 => 0x29 case 4 => 0x03 case 5 => 0x0D
              case 6 => 0x1F case 7 => 0x11 case 8 => 0x4B case 9 => 0x45 case 10 => 0x57 case 11 => 0x59
              case 12 => 0x73 case 13 => 0x7D case 14 => 0x6F case _ => 0x61)
    case 0x4 =>
      (match c case 0 => 0xAD case 1 => 0xA3 case 2 => 0xB1 case 3 => 0xBF case 4 => 0x95 case 5 => 0x9B
              case 6 => 0x89 case 7 => 0x87 case 8 => 0xDD case 9 => 0xD3 case 10 => 0xC1 case 11 => 0xCF
              case 12 => 0xE5 case 13 => 0xEB case 14 => 0xF9 case _ => 0xF7)
    case 0x5 =>
      (match c case 0 => 0x4D case 1 => 0x43 case 2 => 0x51 case 3 => 0x5F case 4 => 0x75 case 5 => 0x7B
              case 6 => 0x69 case 7 => 0x67 case 8 => 0x3D case 9 => 0x33 case 10 => 0x21 case 11 => 0x2F
              case 12 => 0x05 case 13 => 0x0B case 14 => 0x19 case _ => 0x17)
    case 0x6 =>
      (match c case 0 => 0x76 case 1 => 0x78 case 2 => 0x6A case 3 => 0x64 case 4 => 0x4E case 5 => 0x40
              case 6 => 0x52 case 7 => 0x5C case 8 => 0x06 case 9 => 0x08 case 10 => 0x1A case 11 => 0x14
              case 12 => 0x3E case 13 => 0x30 case 14 => 0x22 case _ => 0x2C)
    case 0x7 =>
      (match c case 0 => 0x96 case 1 => 0x98 case 2 => 0x8A case 3 => 0x84 case 4 => 0xAE case 5 => 0xA0
              case 6 => 0xB2 case 7 => 0xBC case 8 => 0xE6 case 9 => 0xE8 case 10 => 0xFA case 11 => 0xF4
              case 12 => 0xDE case 13 => 0xD0 case 14 => 0xC2 case _ => 0xCC)
    case 0x8 =>
      (match c case 0 => 0x41 case 1 => 0x4F case 2 => 0x5D case 3 => 0x53 case 4 => 0x79 case 5 => 0x77
              case 6 => 0x65 case 7 => 0x6B case 8 => 0x31 case 9 => 0x3F case 10 => 0x2D case 11 => 0x23
              case 12 => 0x09 case 13 => 0x07 case 14 => 0x15 case _ => 0x1B)
    case 0x9 =>
      (match c case 0 => 0xA1 case 1 => 0xAF case 2 => 0xBD case 3 => 0xB3 case 4 => 0x99 case 5 => 0x97
              case 6 => 0x85 case 7 => 0x8B case 8 => 0xD1 case 9 => 0xDF case 10 => 0xCD case 11 => 0xC3
              case 12 => 0xE9 case 13 => 0xE7 case 14 => 0xF5 case _ => 0xFB)
    case 0xA =>
      (match c case 0 => 0x9A case 1 => 0x94 case 2 => 0x86 case 3 => 0x88 case 4 => 0xA2 case 5 => 0xAC
              case 6 => 0xBE case 7 => 0xB0 case 8 => 0xEA case 9 => 0xE4 case 10 => 0xF6 case 11 => 0xF8
              case 12 => 0xD2 case 13 => 0xDC case 14 => 0xCE case _ => 0xC0)
    case 0xB =>
      (match c case 0 => 0x7A case 1 => 0x74 case 2 => 0x66 case 3 => 0x68 case 4 => 0x42 case 5 => 0x4C
              case 6 => 0x5E case 7 => 0x50 case 8 => 0x0A case 9 => 0x04 case 10 => 0x16 case 11 => 0x18
              case 12 => 0x32 case 13 => 0x3C case 14 => 0x2E case _ => 0x20)
    case 0xC =>
      (match c case 0 => 0xEC case 1 => 0xE2 case 2 => 0xF0 case 3 => 0xFE case 4 => 0xD4 case 5 => 0xDA
              case 6 => 0xC8 case 7 => 0xC6 case 8 => 0x9C case 9 => 0x92 case 10 => 0x80 case 11 => 0x8E
              case 12 => 0xA4 case 13 => 0xAA case 14 => 0xB8 case _ => 0xB6)
    case 0xD =>
      (match c case 0 => 0x0C case 1 => 0x02 case 2 => 0x10 case 3 => 0x1E case 4 => 0x34 case 5 => 0x3A
              case 6 => 0x28 case 7 => 0x26 case 8 => 0x7C case 9 => 0x72 case 10 => 0x60 case 11 => 0x6E
              case 12 => 0x44 case 13 => 0x4A case 14 => 0x58 case _ => 0x56)
    case 0xE =>
      (match c case 0 => 0x37 case 1 => 0x39 case 2 => 0x2B case 3 => 0x25 case 4 => 0x0F case 5 => 0x01
              case 6 => 0x13 case 7 => 0x1D case 8 => 0x47 case 9 => 0x49 case 10 => 0x5B case 11 => 0x55
              case 12 => 0x7F case 13 => 0x71 case 14 => 0x63 case _ => 0x6D)
    case _ =>
      (match c case 0 => 0xD7 case 1 => 0xD9 case 2 => 0xCB case 3 => 0xC5 case 4 => 0xEF case 5 => 0xE1
              case 6 => 0xF3 case 7 => 0xFD case 8 => 0xA7 case 9 => 0xA9 case 10 => 0xBB case 11 => 0xB5
              case 12 => 0x9F case 13 => 0x91 case 14 => 0x83 case _ => 0x8D)
  }
}
