/** The values of the S-box, section 5.1.1 of FIPS 197, for evaluation on constants. */
module AesTableValues {
  import opened AesTables

  lemma Values00()
    ensures Sbox(0x00) == 0x63 && Sbox(0x01) == 0x7c && Sbox(0x02) == 0x77 && Sbox(0x03) == 0x7b
    ensures Sbox(0x04) == 0xf2 && Sbox(0x05) == 0x6b && Sbox(0x06) == 0x6f && Sbox(0x07) == 0xc5
  {
  }

  lemma Values08()
    ensures Sbox(0x08) == 0x30 && Sbox(0x09) == 0x01 && Sbox(0x0a) == 0x67 && Sbox(0x0b) == 0x2b
    ensures Sbox(0x0c) == 0xfe && Sbox(0x0d) == 0xd7 && Sbox(0x0e) == 0xab && Sbox(0x0f) == 0x76
  {
  }

  lemma Values10()
    ensures Sbox(0x10) == 0xca && Sbox(0x11) == 0x82 && Sbox(0x12) == 0xc9 && Sbox(0x13) == 0x7d
    ensures Sbox(0x14) == 0xfa && Sbox(0x15) == 0x59 && Sbox(0x16) == 0x47 && Sbox(0x17) == 0xf0
  {
  }

  lemma Values18()
    ensures Sbox(0x18) == 0xad && Sbox(0x19) == 0xd4 && Sbox(0x1a) == 0xa2 && Sbox(0x1b) == 0xaf
    ensures Sbox(0x1c) == 0x9c && Sbox(0x1d) == 0xa4 && Sbox(0x1e) == 0x72 && Sbox(0x1f) == 0xc0
  {
  }

  lemma Values20()
    ensures Sbox(0x20) == 0xb7 && Sbox(0x21) == 0xfd && Sbox(0x22) == 0x93 && Sbox(0x23) == 0x26
    ensures Sbox(0x24) == 0x36 && Sbox(0x25) == 0x3f && Sbox(0x26) == 0xf7 && Sbox(0x27) == 0xcc
  {
  }

  lemma Values28()
    ensures Sbox(0x28) == 0x34 && Sbox(0x29) == 0xa5 && Sbox(0x2a) == 0xe5 && Sbox(0x2b) == 0xf1
    ensures Sbox(0x2c) == 0x71 && Sbox(0x2d) == 0xd8 && Sbox(0x2e) == 0x31 && Sbox(0x2f) == 0x15
  {
  }

  lemma Values30()
    ensures Sbox(0x30) == 0x04 && Sbox(0x31) == 0xc7 && Sbox(0x32) == 0x23 && Sbox(0x33) == 0xc3
    ensures Sbox(0x34) == 0x18 && Sbox(0x35) == 0x96 && Sbox(0x36) == 0x05 && Sbox(0x37) == 0x9a
  {
  }

  lemma Values38()
    ensures Sbox(0x38) == 0x07 && Sbox(0x39) == 0x12 && Sbox(0x3a) == 0x80 && Sbox(0x3b) == 0xe2
    ensures Sbox(0x3c) == 0xeb && Sbox(0x3d) == 0x27 && Sbox(0x3e) == 0xb2 && Sbox(0x3f) == 0x75
  {
  }

  lemma Values40()
    ensures Sbox(0x40) == 0x09 && Sbox(0x41) == 0x83 && Sbox(0x42) == 0x2c && Sbox(0x43) == 0x1a
    ensures Sbox(0x44) == 0x1b && Sbox(0x45) == 0x6e && Sbox(0x46) == 0x5a && Sbox(0x47) == 0xa0
  {
  }

  lemma Values48()
    ensures Sbox(0x48) == 0x52 && Sbox(0x49) == 0x3b && Sbox(0x4a) == 0xd6 && Sbox(0x4b) == 0xb3
    ensures Sbox(0x4c) == 0x29 && Sbox(0x4d) == 0xe3 && Sbox(0x4e) == 0x2f && Sbox(0x4f) == 0x84
  {
  }

  lemma Values50()
    ensures Sbox(0x50) == 0x53 && Sbox(0x51) == 0xd1 && Sbox(0x52) == 0x00 && Sbox(0x53) == 0xed
    ensures Sbox(0x54) == 0x20 && Sbox(0x55) == 0xfc && Sbox(0x56) == 0xb1 && Sbox(0x57) == 0x5b
  {
  }

  lemma Values58()
    ensures Sbox(0x58) == 0x6a && Sbox(0x59) == 0xcb && Sbox(0x5a) == 0xbe && Sbox(0x5b) == 0x39
    ensures Sbox(0x5c) == 0x4a && Sbox(0x5d) == 0x4c && Sbox(0x5e) == 0x58 && Sbox(0x5f) == 0xcf
  {
  }

  lemma Values60()
    ensures Sbox(0x60) == 0xd0 && Sbox(0x61) == 0xef && Sbox(0x62) == 0xaa && Sbox(0x63) == 0xfb
    ensures Sbox(0x64) == 0x43 && Sbox(0x65) == 0x4d && Sbox(0x66) == 0x33 && Sbox(0x67) == 0x85
  {
  }

  lemma Values68()
    ensures Sbox(0x68) == 0x45 && Sbox(0x69) == 0xf9 && Sbox(0x6a) == 0x02 && Sbox(0x6b) == 0x7f
    ensures Sbox(0x6c) == 0x50 && Sbox(0x6d) == 0x3c && Sbox(0x6e) == 0x9f && Sbox(0x6f) == 0xa8
  {
  }

  lemma Values70()
    ensures Sbox(0x70) == 0x51 && Sbox(0x71) == 0xa3 && Sbox(0x72) == 0x40 && Sbox(0x73) == 0x8f
    ensures Sbox(0x74) == 0x92 && Sbox(0x75) == 0x9d && Sbox(0x76) == 0x38 && Sbox(0x77) == 0xf5
  {
  }

  lemma Values78()
    ensures Sbox(0x78) == 0xbc && Sbox(0x79) == 0xb6 && Sbox(0x7a) == 0xda && Sbox(0x7b) == 0x21
    ensures Sbox(0x7c) == 0x10 && Sbox(0x7d) == 0xff && Sbox(0x7e) == 0xf3 && Sbox(0x7f) == 0xd2
  {
  }

  lemma Values80()
    ensures Sbox(0x80) == 0xcd && Sbox(0x81) == 0x0c && Sbox(0x82) == 0x13 && Sbox(0x83) == 0xec
    ensures Sbox(0x84) == 0x5f && Sbox(0x85) == 0x97 && Sbox(0x86) == 0x44 && Sbox(0x87) == 0x17
  {
  }

  lemma Values88()
    ensures Sbox(0x88) == 0xc4 && Sbox(0x89) == 0xa7 && Sbox(0x8a) == 0x7e && Sbox(0x8b) == 0x3d
    ensures Sbox(0x8c) == 0x64 && Sbox(0x8d) == 0x5d && Sbox(0x8e) == 0x19 && Sbox(0x8f) == 0x73
  {
  }

  lemma Values90()
    ensures Sbox(0x90) == 0x60 && Sbox(0x91) == 0x81 && Sbox(0x92) == 0x4f && Sbox(0x93) == 0xdc
    ensures Sbox(0x94) == 0x22 && Sbox(0x95) == 0x2a && Sbox(0x96) == 0x90 && Sbox(0x97) == 0x88
  {
  }

  lemma Values98()
    ensures Sbox(0x98) == 0x46 && Sbox(0x99) == 0xee && Sbox(0x9a) == 0xb8 && Sbox(0x9b) == 0x14
    ensures Sbox(0x9c) == 0xde && Sbox(0x9d) == 0x5e && Sbox(0x9e) == 0x0b && Sbox(0x9f) == 0xdb
  {
  }

  lemma ValuesA0()
    ensures Sbox(0xa0) == 0xe0 && Sbox(0xa1) == 0x32 && Sbox(0xa2) == 0x3a && Sbox(0xa3) == 0x0a
    ensures Sbox(0xa4) == 0x49 && Sbox(0xa5) == 0x06 && Sbox(0xa6) == 0x24 && Sbox(0xa7) == 0x5c
  {
  }

  lemma ValuesA8()
    ensures Sbox(0xa8) == 0xc2 && Sbox(0xa9) == 0xd3 && Sbox(0xaa) == 0xac && Sbox(0xab) == 0x62
    ensures Sbox(0xac) == 0x91 && Sbox(0xad) == 0x95 && Sbox(0xae) == 0xe4 && Sbox(0xaf) == 0x79
  {
  }

  lemma ValuesB0()
    ensures Sbox(0xb0) == 0xe7 && Sbox(0xb1) == 0xc8 && Sbox(0xb2) == 0x37 && Sbox(0xb3) == 0x6d
    ensures Sbox(0xb4) == 0x8d && Sbox(0xb5) == 0xd5 && Sbox(0xb6) == 0x4e && Sbox(0xb7) == 0xa9
  {
  }

  lemma ValuesB8()
    ensures Sbox(0xb8) == 0x6c && Sbox(0xb9) == 0x56 && Sbox(0xba) == 0xf4 && Sbox(0xbb) == 0xea
    ensures Sbox(0xbc) == 0x65 && Sbox(0xbd) == 0x7a && Sbox(0xbe) == 0xae && Sbox(0xbf) == 0x08
  {
  }

  lemma ValuesC0()
    ensures Sbox(0xc0) == 0xba && Sbox(0xc1) == 0x78 && Sbox(0xc2) == 0x25 && Sbox(0xc3) == 0x2e
    ensures Sbox(0xc4) == 0x1c && Sbox(0xc5) == 0xa6 && Sbox(0xc6) == 0xb4 && Sbox(0xc7) == 0xc6
  {
  }

  lemma ValuesC8()
    ensures Sbox(0xc8) == 0xe8 && Sbox(0xc9) == 0xdd && Sbox(0xca) == 0x74 && Sbox(0xcb) == 0x1f
    ensures Sbox(0xcc) == 0x4b && Sbox(0xcd) == 0xbd && Sbox(0xce) == 0x8b && Sbox(0xcf) == 0x8a
  {
  }

  lemma ValuesD0()
    ensures Sbox(0xd0) == 0x70 && Sbox(0xd1) == 0x3e && Sbox(0xd2) == 0xb5 && Sbox(0xd3) == 0x66
    ensures Sbox(0xd4) == 0x48 && Sbox(0xd5) == 0x03 && Sbox(0xd6) == 0xf6 && Sbox(0xd7) == 0x0e
  {
  }

  lemma ValuesD8()
    ensures Sbox(0xd8) == 0x61 && Sbox(0xd9) == 0x35 && Sbox(0xda) == 0x57 && Sbox(0xdb) == 0xb9
    ensures Sbox(0xdc) == 0x86 && Sbox(0xdd) == 0xc1 && Sbox(0xde) == 0x1d && Sbox(0xdf) == 0x9e
  {
  }

  lemma ValuesE0()
    ensures Sbox(0xe0) == 0xe1 && Sbox(0xe1) == 0xf8 && Sbox(0xe2) == 0x98 && Sbox(0xe3) == 0x11
    ensures Sbox(0xe4) == 0x69 && Sbox(0xe5) == 0xd9 && Sbox(0xe6) == 0x8e && Sbox(0xe7) == 0x94
  {
  }

  lemma ValuesE8()
    ensures Sbox(0xe8) == 0x9b && Sbox(0xe9) == 0x1e && Sbox(0xea) == 0x87 && Sbox(0xeb) == 0xe9
    ensures Sbox(0xec) == 0xce && Sbox(0xed) == 0x55 && Sbox(0xee) == 0x28 && Sbox(0xef) == 0xdf
  {
  }

  lemma ValuesF0()
    ensures Sbox(0xf0) == 0x8c && Sbox(0xf1) == 0xa1 && Sbox(0xf2) == 0x89 && Sbox(0xf3) == 0x0d
    ensures Sbox(0xf4) == 0xbf && Sbox(0xf5) == 0xe6 && Sbox(0xf6) == 0x42 && Sbox(0xf7) == 0x68
  {
  }

  lemma ValuesF8()
    ensures Sbox(0xf8) == 0x41 && Sbox(0xf9) == 0x99 && Sbox(0xfa) == 0x2d && Sbox(0xfb) == 0x0f
    ensures Sbox(0xfc) == 0xb0 && Sbox(0xfd) == 0x54 && Sbox(0xfe) == 0xbb && Sbox(0xff) == 0x16
  {
  }

  // The whole table.
  lemma SboxValues()
    ensures Sbox(0x00) == 0x63 && Sbox(0x01) == 0x7c && Sbox(0x02) == 0x77 && Sbox(0x03) == 0x7b
    ensures Sbox(0x04) == 0xf2 && Sbox(0x05) == 0x6b && Sbox(0x06) == 0x6f && Sbox(0x07) == 0xc5
    ensures Sbox(0x08) == 0x30 && Sbox(0x09) == 0x01 && Sbox(0x0a) == 0x67 && Sbox(0x0b) == 0x2b
    ensures Sbox(0x0c) == 0xfe && Sbox(0x0d) == 0xd7 && Sbox(0x0e) == 0xab && Sbox(0x0f) == 0x76
    ensures Sbox(0x10) == 0xca && Sbox(0x11) == 0x82 && Sbox(0x12) == 0xc9 && Sbox(0x13) == 0x7d
    ensures Sbox(0x14) == 0xfa && Sbox(0x15) == 0x59 && Sbox(0x16) == 0x47 && Sbox(0x17) == 0xf0
    ensures Sbox(0x18) == 0xad && Sbox(0x19) == 0xd4 && Sbox(0x1a) == 0xa2 && Sbox(0x1b) == 0xaf
    ensures Sbox(0x1c) == 0x9c && Sbox(0x1d) == 0xa4 && Sbox(0x1e) == 0x72 && Sbox(0x1f) == 0xc0
    ensures Sbox(0x20) == 0xb7 && Sbox(0x21) == 0xfd && Sbox(0x22) == 0x93 && Sbox(0x23) == 0x26
    ensures Sbox(0x24) == 0x36 && Sbox(0x25) == 0x3f && Sbox(0x26) == 0xf7 && Sbox(0x27) == 0xcc
    ensures Sbox(0x28) == 0x34 && Sbox(0x29) == 0xa5 && Sbox(0x2a) == 0xe5 && Sbox(0x2b) == 0xf1
    ensures Sbox(0x2c) == 0x71 && Sbox(0x2d) == 0xd8 && Sbox(0x2e) == 0x31 && Sbox(0x2f) == 0x15
    ensures Sbox(0x30) == 0x04 && Sbox(0x31) == 0xc7 && Sbox(0x32) == 0x23 && Sbox(0x33) == 0xc3
    ensures Sbox(0x34) == 0x18 && Sbox(0x35) == 0x96 && Sbox(0x36) == 0x05 && Sbox(0x37) == 0x9a
    ensures Sbox(0x38) == 0x07 && Sbox(0x39) == 0x12 && Sbox(0x3a) == 0x80 && Sbox(0x3b) == 0xe2
    ensures Sbox(0x3c) == 0xeb && Sbox(0x3d) == 0x27 && Sbox(0x3e) == 0xb2 && Sbox(0x3f) == 0x75
    ensures Sbox(0x40) == 0x09 && Sbox(0x41) == 0x83 && Sbox(0x42) == 0x2c && Sbox(0x43) == 0x1a
    ensures Sbox(0x44) == 0x1b && Sbox(0x45) == 0x6e && Sbox(0x46) == 0x5a && Sbox(0x47) == 0xa0
    ensures Sbox(0x48) == 0x52 && Sbox(0x49) == 0x3b && Sbox(0x4a) == 0xd6 && Sbox(0x4b) == 0xb3
    ensures Sbox(0x4c) == 0x29 && Sbox(0x4d) == 0xe3 && Sbox(0x4e) == 0x2f && Sbox(0x4f) == 0x84
    ensures Sbox(0x50) == 0x53 && Sbox(0x51) == 0xd1 && Sbox(0x52) == 0x00 && Sbox(0x53) == 0xed
    ensures Sbox(0x54) == 0x20 && Sbox(0x55) == 0xfc && Sbox(0x56) == 0xb1 && Sbox(0x57) == 0x5b
    ensures Sbox(0x58) == 0x6a && Sbox(0x59) == 0xcb && Sbox(0x5a) == 0xbe && Sbox(0x5b) == 0x39
    ensures Sbox(0x5c) == 0x4a && Sbox(0x5d) == 0x4c && Sbox(0x5e) == 0x58 && Sbox(0x5f) == 0xcf
    ensures Sbox(0x60) == 0xd0 && Sbox(0x61) == 0xef && Sbox(0x62) == 0xaa && Sbox(0x63) == 0xfb
    ensures Sbox(0x64) == 0x43 && Sbox(0x65) == 0x4d && Sbox(0x66) == 0x33 && Sbox(0x67) == 0x85
    ensures Sbox(0x68) == 0x45 && Sbox(0x69) == 0xf9 && Sbox(0x6a) == 0x02 && Sbox(0x6b) == 0x7f
    ensures Sbox(0x6c) == 0x50 && Sbox(0x6d) == 0x3c && Sbox(0x6e) == 0x9f && Sbox(0x6f) == 0xa8
    ensures Sbox(0x70) == 0x51 && Sbox(0x71) == 0xa3 && Sbox(0x72) == 0x40 && Sbox(0x73) == 0x8f
    ensures Sbox(0x74) == 0x92 && Sbox(0x75) == 0x9d && Sbox(0x76) == 0x38 && Sbox(0x77) == 0xf5
    ensures Sbox(0x78) == 0xbc && Sbox(0x79) == 0xb6 && Sbox(0x7a) == 0xda && Sbox(0x7b) == 0x21
    ensures Sbox(0x7c) == 0x10 && Sbox(0x7d) == 0xff && Sbox(0x7e) == 0xf3 && Sbox(0x7f) == 0xd2
    ensures Sbox(0x80) == 0xcd && Sbox(0x81) == 0x0c && Sbox(0x82) == 0x13 && Sbox(0x83) == 0xec
    ensures Sbox(0x84) == 0x5f && Sbox(0x85) == 0x97 && Sbox(0x86) == 0x44 && Sbox(0x87) == 0x17
    ensures Sbox(0x88) == 0xc4 && Sbox(0x89) == 0xa7 && Sbox(0x8a) == 0x7e && Sbox(0x8b) == 0x3d
    ensures Sbox(0x8c) == 0x64 && Sbox(0x8d) == 0x5d && Sbox(0x8e) == 0x19 && Sbox(0x8f) == 0x73
    ensures Sbox(0x90) == 0x60 && Sbox(0x91) == 0x81 && Sbox(0x92) == 0x4f && Sbox(0x93) == 0xdc
    ensures Sbox(0x94) == 0x22 && Sbox(0x95) == 0x2a && Sbox(0x96) == 0x90 && Sbox(0x97) == 0x88
    ensures Sbox(0x98) == 0x46 && Sbox(0x99) == 0xee && Sbox(0x9a) == 0xb8 && Sbox(0x9b) == 0x14
    ensures Sbox(0x9c) == 0xde && Sbox(0x9d) == 0x5e && Sbox(0x9e) == 0x0b && Sbox(0x9f) == 0xdb
    ensures Sbox(0xa0) == 0xe0 && Sbox(0xa1) == 0x32 && Sbox(0xa2) == 0x3a && Sbox(0xa3) == 0x0a
    ensures Sbox(0xa4) == 0x49 && Sbox(0xa5) == 0x06 && Sbox(0xa6) == 0x24 && Sbox(0xa7) == 0x5c
    ensures Sbox(0xa8) == 0xc2 && Sbox(0xa9) == 0xd3 && Sbox(0xaa) == 0xac && Sbox(0xab) == 0x62
    ensures Sbox(0xac) == 0x91 && Sbox(0xad) == 0x95 && Sbox(0xae) == 0xe4 && Sbox(0xaf) == 0x79
    ensures Sbox(0xb0) == 0xe7 && Sbox(0xb1) == 0xc8 && Sbox(0xb2) == 0x37 && Sbox(0xb3) == 0x6d
    ensures Sbox(0xb4) == 0x8d && Sbox(0xb5) == 0xd5 && Sbox(0xb6) == 0x4e && Sbox(0xb7) == 0xa9
    ensures Sbox(0xb8) == 0x6c && Sbox(0xb9) == 0x56 && Sbox(0xba) == 0xf4 && Sbox(0xbb) == 0xea
    ensures Sbox(0xbc) == 0x65 && Sbox(0xbd) == 0x7a && Sbox(0xbe) == 0xae && Sbox(0xbf) == 0x08
    ensures Sbox(0xc0) == 0xba && Sbox(0xc1) == 0x78 && Sbox(0xc2) == 0x25 && Sbox(0xc3) == 0x2e
    ensures Sbox(0xc4) == 0x1c && Sbox(0xc5) == 0xa6 && Sbox(0xc6) == 0xb4 && Sbox(0xc7) == 0xc6
    ensures Sbox(0xc8) == 0xe8 && Sbox(0xc9) == 0xdd && Sbox(0xca) == 0x74 && Sbox(0xcb) == 0x1f
    ensures Sbox(0xcc) == 0x4b && Sbox(0xcd) == 0xbd && Sbox(0xce) == 0x8b && Sbox(0xcf) == 0x8a
    ensures Sbox(0xd0) == 0x70 && Sbox(0xd1) == 0x3e && Sbox(0xd2) == 0xb5 && Sbox(0xd3) == 0x66
    ensures Sbox(0xd4) == 0x48 && Sbox(0xd5) == 0x03 && Sbox(0xd6) == 0xf6 && Sbox(0xd7) == 0x0e
    ensures Sbox(0xd8) == 0x61 && Sbox(0xd9) == 0x35 && Sbox(0xda) == 0x57 && Sbox(0xdb) == 0xb9
    ensures Sbox(0xdc) == 0x86 && Sbox(0xdd) == 0xc1 && Sbox(0xde) == 0x1d && Sbox(0xdf) == 0x9e
    ensures Sbox(0xe0) == 0xe1 && Sbox(0xe1) == 0xf8 && Sbox(0xe2) == 0x98 && Sbox(0xe3) == 0x11
    ensures Sbox(0xe4) == 0x69 && Sbox(0xe5) == 0xd9 && Sbox(0xe6) == 0x8e && Sbox(0xe7) == 0x94
    ensures Sbox(0xe8) == 0x9b && Sbox(0xe9) == 0x1e && Sbox(0xea) == 0x87 && Sbox(0xeb) == 0xe9
    ensures Sbox(0xec) == 0xce && Sbox(0xed) == 0x55 && Sbox(0xee) == 0x28 && Sbox(0xef) == 0xdf
    ensures Sbox(0xf0) == 0x8c && Sbox(0xf1) == 0xa1 && Sbox(0xf2) == 0x89 && Sbox(0xf3) == 0x0d
    ensures Sbox(0xf4) == 0xbf && Sbox(0xf5) == 0xe6 && Sbox(0xf6) == 0x42 && Sbox(0xf7) == 0x68
    ensures Sbox(0xf8) == 0x41 && Sbox(0xf9) == 0x99 && Sbox(0xfa) == 0x2d && Sbox(0xfb) == 0x0f
    ensures Sbox(0xfc) == 0xb0 && Sbox(0xfd) == 0x54 && Sbox(0xfe) == 0xbb && Sbox(0xff) == 0x16
  {
    hide Sbox;
    Values00(); Values08(); Values10(); Values18(); Values20(); Values28(); Values30(); Values38();
    Values40(); Values48(); Values50(); Values58(); Values60(); Values68(); Values70(); Values78();
    Values80(); Values88(); Values90(); Values98(); ValuesA0(); ValuesA8(); ValuesB0(); ValuesB8();
    ValuesC0(); ValuesC8(); ValuesD0(); ValuesD8(); ValuesE0(); ValuesE8(); ValuesF0(); ValuesF8();
  }
}
