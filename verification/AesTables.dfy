/** The precomputed tables of xptMiner/aes_helper.h. Entry i of a table is found through the two
    halves of the byte i, so a row below holds sixteen consecutive entries of the C array. */
module AesTables {

  /** The tables and macros exist for little-endian and for big-endian words. */
  datatype Endian = Little | Big

  type Word = bv32

  /** The macro AESx: the identity on little-endian words, a byte swap on big-endian ones. */
  function AESx(e: Endian, x: Word): Word {
    match e
    case Little => x
    case Big =>
      ((x >> 24) & 0x000000FF) | ((x >> 8) & 0x0000FF00) | ((x << 8) & 0x00FF0000) | ((x << 24) & 0xFF000000)
  }

  function AES0(e: Endian, i: bv8): Word { AESx(e, Raw0(i)) }

  function AES1(e: Endian, i: bv8): Word { AESx(e, Raw1(i)) }

  function AES2(e: Endian, i: bv8): Word { AESx(e, Raw2(i)) }

  function AES3(e: Endian, i: bv8): Word { AESx(e, Raw3(i)) }

  function Raw0(i: bv8): bv32 {
    match i >> 4
    case 0x0 => (
      match i & 0x0F
      case 0x0 => 0xA56363C6 case 0x1 => 0x847C7CF8 case 0x2 => 0x997777EE case 0x3 => 0x8D7B7BF6
      case 0x4 => 0x0DF2F2FF case 0x5 => 0xBD6B6BD6 case 0x6 => 0xB16F6FDE case 0x7 => 0x54C5C591
      case 0x8 => 0x50303060 case 0x9 => 0x03010102 case 0xA => 0xA96767CE case 0xB => 0x7D2B2B56
      case 0xC => 0x19FEFEE7 case 0xD => 0x62D7D7B5 case 0xE => 0xE6ABAB4D case _ => 0x9A7676EC)
    case 0x1 => (
      match i & 0x0F
      case 0x0 => 0x45CACA8F case 0x1 => 0x9D82821F case 0x2 => 0x40C9C989 case 0x3 => 0x877D7DFA
      case 0x4 => 0x15FAFAEF case 0x5 => 0xEB5959B2 case 0x6 => 0xC947478E case 0x7 => 0x0BF0F0FB
      case 0x8 => 0xECADAD41 case 0x9 => 0x67D4D4B3 case 0xA => 0xFDA2A25F case 0xB => 0xEAAFAF45
      case 0xC => 0xBF9C9C23 case 0xD => 0xF7A4A453 case 0xE => 0x967272E4 case _ => 0x5BC0C09B)
    case 0x2 => (
      match i & 0x0F
      case 0x0 => 0xC2B7B775 case 0x1 => 0x1CFDFDE1 case 0x2 => 0xAE93933D case 0x3 => 0x6A26264C
      case 0x4 => 0x5A36366C case 0x5 => 0x413F3F7E case 0x6 => 0x02F7F7F5 case 0x7 => 0x4FCCCC83
      case 0x8 => 0x5C343468 case 0x9 => 0xF4A5A551 case 0xA => 0x34E5E5D1 case 0xB => 0x08F1F1F9
      case 0xC => 0x937171E2 case 0xD => 0x73D8D8AB case 0xE => 0x53313162 case _ => 0x3F15152A)
    case 0x3 => (
      match i & 0x0F
      case 0x0 => 0x0C040408 case 0x1 => 0x52C7C795 case 0x2 => 0x65232346 case 0x3 => 0x5EC3C39D
      case 0x4 => 0x28181830 case 0x5 => 0xA1969637 case 0x6 => 0x0F05050A case 0x7 => 0xB59A9A2F
      case 0x8 => 0x0907070E case 0x9 => 0x36121224 case 0xA => 0x9B80801B case 0xB => 0x3DE2E2DF
      case 0xC => 0x26EBEBCD case 0xD => 0x6927274E case 0xE => 0xCDB2B27F case _ => 0x9F7575EA)
    case 0x4 => (
      match i & 0x0F
      case 0x0 => 0x1B090912 case 0x1 => 0x9E83831D case 0x2 => 0x742C2C58 case 0x3 => 0x2E1A1A34
      case 0x4 => 0x2D1B1B36 case 0x5 => 0xB26E6EDC case 0x6 => 0xEE5A5AB4 case 0x7 => 0xFBA0A05B
      case 0x8 => 0xF65252A4 case 0x9 => 0x4D3B3B76 case 0xA => 0x61D6D6B7 case 0xB => 0xCEB3B37D
      case 0xC => 0x7B292952 case 0xD => 0x3EE3E3DD case 0xE => 0x712F2F5E case _ => 0x97848413)
    case 0x5 => (
      match i & 0x0F
      case 0x0 => 0xF55353A6 case 0x1 => 0x68D1D1B9 case 0x2 => 0x00000000 case 0x3 => 0x2CEDEDC1
      case 0x4 => 0x60202040 case 0x5 => 0x1FFCFCE3 case 0x6 => 0xC8B1B179 case 0x7 => 0xED5B5BB6
      case 0x8 => 0xBE6A6AD4 case 0x9 => 0x46CBCB8D case 0xA => 0xD9BEBE67 case 0xB => 0x4B393972
      case 0xC => 0xDE4A4A94 case 0xD => 0xD44C4C98 case 0xE => 0xE85858B0 case _ => 0x4ACFCF85)
    case 0x6 => (
      match i & 0x0F
      case 0x0 => 0x6BD0D0BB case 0x1 => 0x2AEFEFC5 case 0x2 => 0xE5AAAA4F case 0x3 => 0x16FBFBED
      case 0x4 => 0xC5434386 case 0x5 => 0xD74D4D9A case 0x6 => 0x55333366 case 0x7 => 0x94858511
      case 0x8 => 0xCF45458A case 0x9 => 0x10F9F9E9 case 0xA => 0x06020204 case 0xB => 0x817F7FFE
      case 0xC => 0xF05050A0 case 0xD => 0x443C3C78 case 0xE => 0xBA9F9F25 case _ => 0xE3A8A84B)
    case 0x7 => (
      match i & 0x0F
      case 0x0 => 0xF35151A2 case 0x1 => 0xFEA3A35D case 0x2 => 0xC0404080 case 0x3 => 0x8A8F8F05
      case 0x4 => 0xAD92923F case 0x5 => 0xBC9D9D21 case 0x6 => 0x48383870 case 0x7 => 0x04F5F5F1
      case 0x8 => 0xDFBCBC63 case 0x9 => 0xC1B6B677 case 0xA => 0x75DADAAF case 0xB => 0x63212142
      case 0xC => 0x30101020 case 0xD => 0x1AFFFFE5 case 0xE => 0x0EF3F3FD case _ => 0x6DD2D2BF)
    case 0x8 => (
      match i & 0x0F
      case 0x0 => 0x4CCDCD81 case 0x1 => 0x140C0C18 case 0x2 => 0x35131326 case 0x3 => 0x2FECECC3
      case 0x4 => 0xE15F5FBE case 0x5 => 0xA2979735 case 0x6 => 0xCC444488 case 0x7 => 0x3917172E
      case 0x8 => 0x57C4C493 case 0x9 => 0xF2A7A755 case 0xA => 0x827E7EFC case 0xB => 0x473D3D7A
      case 0xC => 0xAC6464C8 case 0xD => 0xE75D5DBA case 0xE => 0x2B191932 case _ => 0x957373E6)
    case 0x9 => (
      match i & 0x0F
      case 0x0 => 0xA06060C0 case 0x1 => 0x98818119 case 0x2 => 0xD14F4F9E case 0x3 => 0x7FDCDCA3
      case 0x4 => 0x66222244 case 0x5 => 0x7E2A2A54 case 0x6 => 0xAB90903B case 0x7 => 0x8388880B
      case 0x8 => 0xCA46468C case 0x9 => 0x29EEEEC7 case 0xA => 0xD3B8B86B case 0xB => 0x3C141428
      case 0xC => 0x79DEDEA7 case 0xD => 0xE25E5EBC case 0xE => 0x1D0B0B16 case _ => 0x76DBDBAD)
    case 0xA => (
      match i & 0x0F
      case 0x0 => 0x3BE0E0DB case 0x1 => 0x56323264 case 0x2 => 0x4E3A3A74 case 0x3 => 0x1E0A0A14
      case 0x4 => 0xDB494992 case 0x5 => 0x0A06060C case 0x6 => 0x6C242448 case 0x7 => 0xE45C5CB8
      case 0x8 => 0x5DC2C29F case 0x9 => 0x6ED3D3BD case 0xA => 0xEFACAC43 case 0xB => 0xA66262C4
      case 0xC => 0xA8919139 case 0xD => 0xA4959531 case 0xE => 0x37E4E4D3 case _ => 0x8B7979F2)
    case 0xB => (
      match i & 0x0F
      case 0x0 => 0x32E7E7D5 case 0x1 => 0x43C8C88B case 0x2 => 0x5937376E case 0x3 => 0xB76D6DDA
      case 0x4 => 0x8C8D8D01 case 0x5 => 0x64D5D5B1 case 0x6 => 0xD24E4E9C case 0x7 => 0xE0A9A949
      case 0x8 => 0xB46C6CD8 case 0x9 => 0xFA5656AC case 0xA => 0x07F4F4F3 case 0xB => 0x25EAEACF
      case 0xC => 0xAF6565CA case 0xD => 0x8E7A7AF4 case 0xE => 0xE9AEAE47 case _ => 0x18080810)
    case 0xC => (
      match i & 0x0F
      case 0x0 => 0xD5BABA6F case 0x1 => 0x887878F0 case 0x2 => 0x6F25254A case 0x3 => 0x722E2E5C
      case 0x4 => 0x241C1C38 case 0x5 => 0xF1A6A657 case 0x6 => 0xC7B4B473 case 0x7 => 0x51C6C697
      case 0x8 => 0x23E8E8CB case 0x9 => 0x7CDDDDA1 case 0xA => 0x9C7474E8 case 0xB => 0x211F1F3E
      case 0xC => 0xDD4B4B96 case 0xD => 0xDCBDBD61 case 0xE => 0x868B8B0D case _ => 0x858A8A0F)
    case 0xD => (
      match i & 0x0F
      case 0x0 => 0x907070E0 case 0x1 => 0x423E3E7C case 0x2 => 0xC4B5B571 case 0x3 => 0xAA6666CC
      case 0x4 => 0xD8484890 case 0x5 => 0x05030306 case 0x6 => 0x01F6F6F7 case 0x7 => 0x120E0E1C
      case 0x8 => 0xA36161C2 case 0x9 => 0x5F35356A case 0xA => 0xF95757AE case 0xB => 0xD0B9B969
      case 0xC => 0x91868617 case 0xD => 0x58C1C199 case 0xE => 0x271D1D3A case _ => 0xB99E9E27)
    case 0xE => (
      match i & 0x0F
      case 0x0 => 0x38E1E1D9 case 0x1 => 0x13F8F8EB case 0x2 => 0xB398982B case 0x3 => 0x33111122
      case 0x4 => 0xBB6969D2 case 0x5 => 0x70D9D9A9 case 0x6 => 0x898E8E07 case 0x7 => 0xA7949433
      case 0x8 => 0xB69B9B2D case 0x9 => 0x221E1E3C case 0xA => 0x92878715 case 0xB => 0x20E9E9C9
      case 0xC => 0x49CECE87 case 0xD => 0xFF5555AA case 0xE => 0x78282850 case _ => 0x7ADFDFA5)
    case _ => (
      match i & 0x0F
      case 0x0 => 0x8F8C8C03 case 0x1 => 0xF8A1A159 case 0x2 => 0x80898909 case 0x3 => 0x170D0D1A
      case 0x4 => 0xDABFBF65 case 0x5 => 0x31E6E6D7 case 0x6 => 0xC6424284 case 0x7 => 0xB86868D0
      case 0x8 => 0xC3414182 case 0x9 => 0xB0999929 case 0xA => 0x772D2D5A case 0xB => 0x110F0F1E
      case 0xC => 0xCBB0B07B case 0xD => 0xFC5454A8 case 0xE => 0xD6BBBB6D case _ => 0x3A16162C)
  }

  function Raw1(i: bv8): bv32 {
    match i >> 4
    case 0x0 => (
      match i & 0x0F
      case 0x0 => 0x6363C6A5 case 0x1 => 0x7C7CF884 case 0x2 => 0x7777EE99 case 0x3 => 0x7B7BF68D
      case 0x4 => 0xF2F2FF0D case 0x5 => 0x6B6BD6BD case 0x6 => 0x6F6FDEB1 case 0x7 => 0xC5C59154
      case 0x8 => 0x30306050 case 0x9 => 0x01010203 case 0xA => 0x6767CEA9 case 0xB => 0x2B2B567D
      case 0xC => 0xFEFEE719 case 0xD => 0xD7D7B562 case 0xE => 0xABAB4DE6 case _ => 0x7676EC9A)
    case 0x1 => (
      match i & 0x0F
      case 0x0 => 0xCACA8F45 case 0x1 => 0x82821F9D case 0x2 => 0xC9C98940 case 0x3 => 0x7D7DFA87
      case 0x4 => 0xFAFAEF15 case 0x5 => 0x5959B2EB case 0x6 => 0x47478EC9 case 0x7 => 0xF0F0FB0B
      case 0x8 => 0xADAD41EC case 0x9 => 0xD4D4B367 case 0xA => 0xA2A25FFD case 0xB => 0xAFAF45EA
      case 0xC => 0x9C9C23BF case 0xD => 0xA4A453F7 case 0xE => 0x7272E496 case _ => 0xC0C09B5B)
    case 0x2 => (
      match i & 0x0F
      case 0x0 => 0xB7B775C2 case 0x1 => 0xFDFDE11C case 0x2 => 0x93933DAE case 0x3 => 0x26264C6A
      case 0x4 => 0x36366C5A case 0x5 => 0x3F3F7E41 case 0x6 => 0xF7F7F502 case 0x7 => 0xCCCC834F
      case 0x8 => 0x3434685C case 0x9 => 0xA5A551F4 case 0xA => 0xE5E5D134 case 0xB => 0xF1F1F908
      case 0xC => 0x7171E293 case 0xD => 0xD8D8AB73 case 0xE => 0x31316253 case _ => 0x15152A3F)
    case 0x3 => (
      match i & 0x0F
      case 0x0 => 0x0404080C case 0x1 => 0xC7C79552 case 0x2 => 0x23234665 case 0x3 => 0xC3C39D5E
      case 0x4 => 0x18183028 case 0x5 => 0x969637A1 case 0x6 => 0x05050A0F case 0x7 => 0x9A9A2FB5
      case 0x8 => 0x07070E09 case 0x9 => 0x12122436 case 0xA => 0x80801B9B case 0xB => 0xE2E2DF3D
      case 0xC => 0xEBEBCD26 case 0xD => 0x27274E69 case 0xE => 0xB2B27FCD case _ => 0x7575EA9F)
    case 0x4 => (
      match i & 0x0F
      case 0x0 => 0x0909121B case 0x1 => 0x83831D9E case 0x2 => 0x2C2C5874 case 0x3 => 0x1A1A342E
      case 0x4 => 0x1B1B362D case 0x5 => 0x6E6EDCB2 case 0x6 => 0x5A5AB4EE case 0x7 => 0xA0A05BFB
      case 0x8 => 0x5252A4F6 case 0x9 => 0x3B3B764D case 0xA => 0xD6D6B761 case 0xB => 0xB3B37DCE
      case 0xC => 0x2929527B case 0xD => 0xE3E3DD3E case 0xE => 0x2F2F5E71 case _ => 0x84841397)
    case 0x5 => (
      match i & 0x0F
      case 0x0 => 0x5353A6F5 case 0x1 => 0xD1D1B968 case 0x2 => 0x00000000 case 0x3 => 0xEDEDC12C
      case 0x4 => 0x20204060 case 0x5 => 0xFCFCE31F case 0x6 => 0xB1B179C8 case 0x7 => 0x5B5BB6ED
      case 0x8 => 0x6A6AD4BE case 0x9 => 0xCBCB8D46 case 0xA => 0xBEBE67D9 case 0xB => 0x3939724B
      case 0xC => 0x4A4A94DE case 0xD => 0x4C4C98D4 case 0xE => 0x5858B0E8 case _ => 0xCFCF854A)
    case 0x6 => (
      match i & 0x0F
      case 0x0 => 0xD0D0BB6B case 0x1 => 0xEFEFC52A case 0x2 => 0xAAAA4FE5 case 0x3 => 0xFBFBED16
      case 0x4 => 0x434386C5 case 0x5 => 0x4D4D9AD7 case 0x6 => 0x33336655 case 0x7 => 0x85851194
      case 0x8 => 0x45458ACF case 0x9 => 0xF9F9E910 case 0xA => 0x02020406 case 0xB => 0x7F7FFE81
      case 0xC => 0x5050A0F0 case 0xD => 0x3C3C7844 case 0xE => 0x9F9F25BA case _ => 0xA8A84BE3)
    case 0x7 => (
      match i & 0x0F
      case 0x0 => 0x5151A2F3 case 0x1 => 0xA3A35DFE case 0x2 => 0x404080C0 case 0x3 => 0x8F8F058A
      case 0x4 => 0x92923FAD case 0x5 => 0x9D9D21BC case 0x6 => 0x38387048 case 0x7 => 0xF5F5F104
      case 0x8 => 0xBCBC63DF case 0x9 => 0xB6B677C1 case 0xA => 0xDADAAF75 case 0xB => 0x21214263
      case 0xC => 0x10102030 case 0xD => 0xFFFFE51A case 0xE => 0xF3F3FD0E case _ => 0xD2D2BF6D)
    case 0x8 => (
      match i & 0x0F
      case 0x0 => 0xCDCD814C case 0x1 => 0x0C0C1814 case 0x2 => 0x13132635 case 0x3 => 0xECECC32F
      case 0x4 => 0x5F5FBEE1 case 0x5 => 0x979735A2 case 0x6 => 0x444488CC case 0x7 => 0x17172E39
      case 0x8 => 0xC4C49357 case 0x9 => 0xA7A755F2 case 0xA => 0x7E7EFC82 case 0xB => 0x3D3D7A47
      case 0xC => 0x6464C8AC case 0xD => 0x5D5DBAE7 case 0xE => 0x1919322B case _ => 0x7373E695)
    case 0x9 => (
      match i & 0x0F
      case 0x0 => 0x6060C0A0 case 0x1 => 0x81811998 case 0x2 => 0x4F4F9ED1 case 0x3 => 0xDCDCA37F
      case 0x4 => 0x22224466 case 0x5 => 0x2A2A547E case 0x6 => 0x90903BAB case 0x7 => 0x88880B83
      case 0x8 => 0x46468CCA case 0x9 => 0xEEEEC729 case 0xA => 0xB8B86BD3 case 0xB => 0x1414283C
      case 0xC => 0xDEDEA779 case 0xD => 0x5E5EBCE2 case 0xE => 0x0B0B161D case _ => 0xDBDBAD76)
    case 0xA => (
      match i & 0x0F
      case 0x0 => 0xE0E0DB3B case 0x1 => 0x32326456 case 0x2 => 0x3A3A744E case 0x3 => 0x0A0A141E
      case 0x4 => 0x494992DB case 0x5 => 0x06060C0A case 0x6 => 0x2424486C case 0x7 => 0x5C5CB8E4
      case 0x8 => 0xC2C29F5D case 0x9 => 0xD3D3BD6E case 0xA => 0xACAC43EF case 0xB => 0x6262C4A6
      case 0xC => 0x919139A8 case 0xD => 0x959531A4 case 0xE => 0xE4E4D337 case _ => 0x7979F28B)
    case 0xB => (
      match i & 0x0F
      case 0x0 => 0xE7E7D532 case 0x1 => 0xC8C88B43 case 0x2 => 0x37376E59 case 0x3 => 0x6D6DDAB7
      case 0x4 => 0x8D8D018C case 0x5 => 0xD5D5B164 case 0x6 => 0x4E4E9CD2 case 0x7 => 0xA9A949E0
      case 0x8 => 0x6C6CD8B4 case 0x9 => 0x5656ACFA case 0xA => 0xF4F4F307 case 0xB => 0xEAEACF25
      case 0xC => 0x6565CAAF case 0xD => 0x7A7AF48E case 0xE => 0xAEAE47E9 case _ => 0x08081018)
    case 0xC => (
      match i & 0x0F
      case 0x0 => 0xBABA6FD5 case 0x1 => 0x7878F088 case 0x2 => 0x25254A6F case 0x3 => 0x2E2E5C72
      case 0x4 => 0x1C1C3824 case 0x5 => 0xA6A657F1 case 0x6 => 0xB4B473C7 case 0x7 => 0xC6C69751
      case 0x8 => 0xE8E8CB23 case 0x9 => 0xDDDDA17C case 0xA => 0x7474E89C case 0xB => 0x1F1F3E21
      case 0xC => 0x4B4B96DD case 0xD => 0xBDBD61DC case 0xE => 0x8B8B0D86 case _ => 0x8A8A0F85)
    case 0xD => (
      match i & 0x0F
      case 0x0 => 0x7070E090 case 0x1 => 0x3E3E7C42 case 0x2 => 0xB5B571C4 case 0x3 => 0x6666CCAA
      case 0x4 => 0x484890D8 case 0x5 => 0x03030605 case 0x6 => 0xF6F6F701 case 0x7 => 0x0E0E1C12
      case 0x8 => 0x6161C2A3 case 0x9 => 0x35356A5F case 0xA => 0x5757AEF9 case 0xB => 0xB9B969D0
      case 0xC => 0x86861791 case 0xD => 0xC1C19958 case 0xE => 0x1D1D3A27 case _ => 0x9E9E27B9)
    case 0xE => (
      match i & 0x0F
      case 0x0 => 0xE1E1D938 case 0x1 => 0xF8F8EB13 case 0x2 => 0x98982BB3 case 0x3 => 0x11112233
      case 0x4 => 0x6969D2BB case 0x5 => 0xD9D9A970 case 0x6 => 0x8E8E0789 case 0x7 => 0x949433A7
      case 0x8 => 0x9B9B2DB6 case 0x9 => 0x1E1E3C22 case 0xA => 0x87871592 case 0xB => 0xE9E9C920
      case 0xC => 0xCECE8749 case 0xD => 0x5555AAFF case 0xE => 0x28285078 case _ => 0xDFDFA57A)
    case _ => (
      match i & 0x0F
      case 0x0 => 0x8C8C038F case 0x1 => 0xA1A159F8 case 0x2 => 0x89890980 case 0x3 => 0x0D0D1A17
      case 0x4 => 0xBFBF65DA case 0x5 => 0xE6E6D731 case 0x6 => 0x424284C6 case 0x7 => 0x6868D0B8
      case 0x8 => 0x414182C3 case 0x9 => 0x999929B0 case 0xA => 0x2D2D5A77 case 0xB => 0x0F0F1E11
      case 0xC => 0xB0B07BCB case 0xD => 0x5454A8FC case 0xE => 0xBBBB6DD6 case _ => 0x16162C3A)
  }

  function Raw2(i: bv8): bv32 {
    match i >> 4
    case 0x0 => (
      match i & 0x0F
      case 0x0 => 0x63C6A563 case 0x1 => 0x7CF8847C case 0x2 => 0x77EE9977 case 0x3 => 0x7BF68D7B
      case 0x4 => 0xF2FF0DF2 case 0x5 => 0x6BD6BD6B case 0x6 => 0x6FDEB16F case 0x7 => 0xC59154C5
      case 0x8 => 0x30605030 case 0x9 => 0x01020301 case 0xA => 0x67CEA967 case 0xB => 0x2B567D2B
      case 0xC => 0xFEE719FE case 0xD => 0xD7B562D7 case 0xE => 0xAB4DE6AB case _ => 0x76EC9A76)
    case 0x1 => (
      match i & 0x0F
      case 0x0 => 0xCA8F45CA case 0x1 => 0x821F9D82 case 0x2 => 0xC98940C9 case 0x3 => 0x7DFA877D
      case 0x4 => 0xFAEF15FA case 0x5 => 0x59B2EB59 case 0x6 => 0x478EC947 case 0x7 => 0xF0FB0BF0
      case 0x8 => 0xAD41ECAD case 0x9 => 0xD4B367D4 case 0xA => 0xA25FFDA2 case 0xB => 0xAF45EAAF
      case 0xC => 0x9C23BF9C case 0xD => 0xA453F7A4 case 0xE => 0x72E49672 case _ => 0xC09B5BC0)
    case 0x2 => (
      match i & 0x0F
      case 0x0 => 0xB775C2B7 case 0x1 => 0xFDE11CFD case 0x2 => 0x933DAE93 case 0x3 => 0x264C6A26
      case 0x4 => 0x366C5A36 case 0x5 => 0x3F7E413F case 0x6 => 0xF7F502F7 case 0x7 => 0xCC834FCC
      case 0x8 => 0x34685C34 case 0x9 => 0xA551F4A5 case 0xA => 0xE5D134E5 case 0xB => 0xF1F908F1
      case 0xC => 0x71E29371 case 0xD => 0xD8AB73D8 case 0xE => 0x31625331 case _ => 0x152A3F15)
    case 0x3 => (
      match i & 0x0F
      case 0x0 => 0x04080C04 case 0x1 => 0xC79552C7 case 0x2 => 0x23466523 case 0x3 => 0xC39D5EC3
      case 0x4 => 0x18302818 case 0x5 => 0x9637A196 case 0x6 => 0x050A0F05 case 0x7 => 0x9A2FB59A
      case 0x8 => 0x070E0907 case 0x9 => 0x12243612 case 0xA => 0x801B9B80 case 0xB => 0xE2DF3DE2
      case 0xC => 0xEBCD26EB case 0xD => 0x274E6927 case 0xE => 0xB27FCDB2 case _ => 0x75EA9F75)
    case 0x4 => (
      match i & 0x0F
      case 0x0 => 0x09121B09 case 0x1 => 0x831D9E83 case 0x2 => 0x2C58742C case 0x3 => 0x1A342E1A
      case 0x4 => 0x1B362D1B case 0x5 => 0x6EDCB26E case 0x6 => 0x5AB4EE5A case 0x7 => 0xA05BFBA0
      case 0x8 => 0x52A4F652 case 0x9 => 0x3B764D3B case 0xA => 0xD6B761D6 case 0xB => 0xB37DCEB3
      case 0xC => 0x29527B29 case 0xD => 0xE3DD3EE3 case 0xE => 0x2F5E712F case _ => 0x84139784)
    case 0x5 => (
      match i & 0x0F
      case 0x0 => 0x53A6F553 case 0x1 => 0xD1B968D1 case 0x2 => 0x00000000 case 0x3 => 0xEDC12CED
      case 0x4 => 0x20406020 case 0x5 => 0xFCE31FFC case 0x6 => 0xB179C8B1 case 0x7 => 0x5BB6ED5B
      case 0x8 => 0x6AD4BE6A case 0x9 => 0xCB8D46CB case 0xA => 0xBE67D9BE case 0xB => 0x39724B39
      case 0xC => 0x4A94DE4A case 0xD => 0x4C98D44C case 0xE => 0x58B0E858 case _ => 0xCF854ACF)
    case 0x6 => (
      match i & 0x0F
      case 0x0 => 0xD0BB6BD0 case 0x1 => 0xEFC52AEF case 0x2 => 0xAA4FE5AA case 0x3 => 0xFBED16FB
      case 0x4 => 0x4386C543 case 0x5 => 0x4D9AD74D case 0x6 => 0x33665533 case 0x7 => 0x85119485
      case 0x8 => 0x458ACF45 case 0x9 => 0xF9E910F9 case 0xA => 0x02040602 case 0xB => 0x7FFE817F
      case 0xC => 0x50A0F050 case 0xD => 0x3C78443C case 0xE => 0x9F25BA9F case _ => 0xA84BE3A8)
    case 0x7 => (
      match i & 0x0F
      case 0x0 => 0x51A2F351 case 0x1 => 0xA35DFEA3 case 0x2 => 0x4080C040 case 0x3 => 0x8F058A8F
      case 0x4 => 0x923FAD92 case 0x5 => 0x9D21BC9D case 0x6 => 0x38704838 case 0x7 => 0xF5F104F5
      case 0x8 => 0xBC63DFBC case 0x9 => 0xB677C1B6 case 0xA => 0xDAAF75DA case 0xB => 0x21426321
      case 0xC => 0x10203010 case 0xD => 0xFFE51AFF case 0xE => 0xF3FD0EF3 case _ => 0xD2BF6DD2)
    case 0x8 => (
      match i & 0x0F
      case 0x0 => 0xCD814CCD case 0x1 => 0x0C18140C case 0x2 => 0x13263513 case 0x3 => 0xECC32FEC
      case 0x4 => 0x5FBEE15F case 0x5 => 0x9735A297 case 0x6 => 0x4488CC44 case 0x7 => 0x172E3917
      case 0x8 => 0xC49357C4 case 0x9 => 0xA755F2A7 case 0xA => 0x7EFC827E case 0xB => 0x3D7A473D
      case 0xC => 0x64C8AC64 case 0xD => 0x5DBAE75D case 0xE => 0x19322B19 case _ => 0x73E69573)
    case 0x9 => (
      match i & 0x0F
      case 0x0 => 0x60C0A060 case 0x1 => 0x81199881 case 0x2 => 0x4F9ED14F case 0x3 => 0xDCA37FDC
      case 0x4 => 0x22446622 case 0x5 => 0x2A547E2A case 0x6 => 0x903BAB90 case 0x7 => 0x880B8388
      case 0x8 => 0x468CCA46 case 0x9 => 0xEEC729EE case 0xA => 0xB86BD3B8 case 0xB => 0x14283C14
      case 0xC => 0xDEA779DE case 0xD => 0x5EBCE25E case 0xE => 0x0B161D0B case _ => 0xDBAD76DB)
    case 0xA => (
      match i & 0x0F
      case 0x0 => 0xE0DB3BE0 case 0x1 => 0x32645632 case 0x2 => 0x3A744E3A case 0x3 => 0x0A141E0A
      case 0x4 => 0x4992DB49 case 0x5 => 0x060C0A06 case 0x6 => 0x24486C24 case 0x7 => 0x5CB8E45C
      case 0x8 => 0xC29F5DC2 case 0x9 => 0xD3BD6ED3 case 0xA => 0xAC43EFAC case 0xB => 0x62C4A662
      case 0xC => 0x9139A891 case 0xD => 0x9531A495 case 0xE => 0xE4D337E4 case _ => 0x79F28B79)
    case 0xB => (
      match i & 0x0F
      case 0x0 => 0xE7D532E7 case 0x1 => 0xC88B43C8 case 0x2 => 0x376E5937 case 0x3 => 0x6DDAB76D
      case 0x4 => 0x8D018C8D case 0x5 => 0xD5B164D5 case 0x6 => 0x4E9CD24E case 0x7 => 0xA949E0A9
      case 0x8 => 0x6CD8B46C case 0x9 => 0x56ACFA56 case 0xA => 0xF4F307F4 case 0xB => 0xEACF25EA
      case 0xC => 0x65CAAF65 case 0xD => 0x7AF48E7A case 0xE => 0xAE47E9AE case _ => 0x08101808)
    case 0xC => (
      match i & 0x0F
      case 0x0 => 0xBA6FD5BA case 0x1 => 0x78F08878 case 0x2 => 0x254A6F25 case 0x3 => 0x2E5C722E
      case 0x4 => 0x1C38241C case 0x5 => 0xA657F1A6 case 0x6 => 0xB473C7B4 case 0x7 => 0xC69751C6
      case 0x8 => 0xE8CB23E8 case 0x9 => 0xDDA17CDD case 0xA => 0x74E89C74 case 0xB => 0x1F3E211F
      case 0xC => 0x4B96DD4B case 0xD => 0xBD61DCBD case 0xE => 0x8B0D868B case _ => 0x8A0F858A)
    case 0xD => (
      match i & 0x0F
      case 0x0 => 0x70E09070 case 0x1 => 0x3E7C423E case 0x2 => 0xB571C4B5 case 0x3 => 0x66CCAA66
      case 0x4 => 0x4890D848 case 0x5 => 0x03060503 case 0x6 => 0xF6F701F6 case 0x7 => 0x0E1C120E
      case 0x8 => 0x61C2A361 case 0x9 => 0x356A5F35 case 0xA => 0x57AEF957 case 0xB => 0xB969D0B9
      case 0xC => 0x86179186 case 0xD => 0xC19958C1 case 0xE => 0x1D3A271D case _ => 0x9E27B99E)
    case 0xE => (
      match i & 0x0F
      case 0x0 => 0xE1D938E1 case 0x1 => 0xF8EB13F8 case 0x2 => 0x982BB398 case 0x3 => 0x11223311
      case 0x4 => 0x69D2BB69 case 0x5 => 0xD9A970D9 case 0x6 => 0x8E07898E case 0x7 => 0x9433A794
      case 0x8 => 0x9B2DB69B case 0x9 => 0x1E3C221E case 0xA => 0x87159287 case 0xB => 0xE9C920E9
      case 0xC => 0xCE8749CE case 0xD => 0x55AAFF55 case 0xE => 0x28507828 case _ => 0xDFA57ADF)
    case _ => (
      match i & 0x0F
      case 0x0 => 0x8C038F8C case 0x1 => 0xA159F8A1 case 0x2 => 0x89098089 case 0x3 => 0x0D1A170D
      case 0x4 => 0xBF65DABF case 0x5 => 0xE6D731E6 case 0x6 => 0x4284C642 case 0x7 => 0x68D0B868
      case 0x8 => 0x4182C341 case 0x9 => 0x9929B099 case 0xA => 0x2D5A772D case 0xB => 0x0F1E110F
      case 0xC => 0xB07BCBB0 case 0xD => 0x54A8FC54 case 0xE => 0xBB6DD6BB case _ => 0x162C3A16)
  }

  function Raw3(i: bv8): bv32 {
    match i >> 4
    case 0x0 => (
      match i & 0x0F
      case 0x0 => 0xC6A56363 case 0x1 => 0xF8847C7C case 0x2 => 0xEE997777 case 0x3 => 0xF68D7B7B
      case 0x4 => 0xFF0DF2F2 case 0x5 => 0xD6BD6B6B case 0x6 => 0xDEB16F6F case 0x7 => 0x9154C5C5
      case 0x8 => 0x60503030 case 0x9 => 0x02030101 case 0xA => 0xCEA96767 case 0xB => 0x567D2B2B
      case 0xC => 0xE719FEFE case 0xD => 0xB562D7D7 case 0xE => 0x4DE6ABAB case _ => 0xEC9A7676)
    case 0x1 => (
      match i & 0x0F
      case 0x0 => 0x8F45CACA case 0x1 => 0x1F9D8282 case 0x2 => 0x8940C9C9 case 0x3 => 0xFA877D7D
      case 0x4 => 0xEF15FAFA case 0x5 => 0xB2EB5959 case 0x6 => 0x8EC94747 case 0x7 => 0xFB0BF0F0
      case 0x8 => 0x41ECADAD case 0x9 => 0xB367D4D4 case 0xA => 0x5FFDA2A2 case 0xB => 0x45EAAFAF
      case 0xC => 0x23BF9C9C case 0xD => 0x53F7A4A4 case 0xE => 0xE4967272 case _ => 0x9B5BC0C0)
    case 0x2 => (
      match i & 0x0F
      case 0x0 => 0x75C2B7B7 case 0x1 => 0xE11CFDFD case 0x2 => 0x3DAE9393 case 0x3 => 0x4C6A2626
      case 0x4 => 0x6C5A3636 case 0x5 => 0x7E413F3F case 0x6 => 0xF502F7F7 case 0x7 => 0x834FCCCC
      case 0x8 => 0x685C3434 case 0x9 => 0x51F4A5A5 case 0xA => 0xD134E5E5 case 0xB => 0xF908F1F1
      case 0xC => 0xE2937171 case 0xD => 0xAB73D8D8 case 0xE => 0x62533131 case _ => 0x2A3F1515)
    case 0x3 => (
      match i & 0x0F
      case 0x0 => 0x080C0404 case 0x1 => 0x9552C7C7 case 0x2 => 0x46652323 case 0x3 => 0x9D5EC3C3
      case 0x4 => 0x30281818 case 0x5 => 0x37A19696 case 0x6 => 0x0A0F0505 case 0x7 => 0x2FB59A9A
      case 0x8 => 0x0E090707 case 0x9 => 0x24361212 case 0xA => 0x1B9B8080 case 0xB => 0xDF3DE2E2
      case 0xC => 0xCD26EBEB case 0xD => 0x4E692727 case 0xE => 0x7FCDB2B2 case _ => 0xEA9F7575)
    case 0x4 => (
      match i & 0x0F
      case 0x0 => 0x121B0909 case 0x1 => 0x1D9E8383 case 0x2 => 0x58742C2C case 0x3 => 0x342E1A1A
      case 0x4 => 0x362D1B1B case 0x5 => 0xDCB26E6E case 0x6 => 0xB4EE5A5A case 0x7 => 0x5BFBA0A0
      case 0x8 => 0xA4F65252 case 0x9 => 0x764D3B3B case 0xA => 0xB761D6D6 case 0xB => 0x7DCEB3B3
      case 0xC => 0x527B2929 case 0xD => 0xDD3EE3E3 case 0xE => 0x5E712F2F case _ => 0x13978484)
    case 0x5 => (
      match i & 0x0F
      case 0x0 => 0xA6F55353 case 0x1 => 0xB968D1D1 case 0x2 => 0x00000000 case 0x3 => 0xC12CEDED
      case 0x4 => 0x40602020 case 0x5 => 0xE31FFCFC case 0x6 => 0x79C8B1B1 case 0x7 => 0xB6ED5B5B
      case 0x8 => 0xD4BE6A6A case 0x9 => 0x8D46CBCB case 0xA => 0x67D9BEBE case 0xB => 0x724B3939
      case 0xC => 0x94DE4A4A case 0xD => 0x98D44C4C case 0xE => 0xB0E85858 case _ => 0x854ACFCF)
    case 0x6 => (
      match i & 0x0F
      case 0x0 => 0xBB6BD0D0 case 0x1 => 0xC52AEFEF case 0x2 => 0x4FE5AAAA case 0x3 => 0xED16FBFB
      case 0x4 => 0x86C54343 case 0x5 => 0x9AD74D4D case 0x6 => 0x66553333 case 0x7 => 0x11948585
      case 0x8 => 0x8ACF4545 case 0x9 => 0xE910F9F9 case 0xA => 0x04060202 case 0xB => 0xFE817F7F
      case 0xC => 0xA0F05050 case 0xD => 0x78443C3C case 0xE => 0x25BA9F9F case _ => 0x4BE3A8A8)
    case 0x7 => (
      match i & 0x0F
      case 0x0 => 0xA2F35151 case 0x1 => 0x5DFEA3A3 case 0x2 => 0x80C04040 case 0x3 => 0x058A8F8F
      case 0x4 => 0x3FAD9292 case 0x5 => 0x21BC9D9D case 0x6 => 0x70483838 case 0x7 => 0xF104F5F5
      case 0x8 => 0x63DFBCBC case 0x9 => 0x77C1B6B6 case 0xA => 0xAF75DADA case 0xB => 0x42632121
      case 0xC => 0x20301010 case 0xD => 0xE51AFFFF case 0xE => 0xFD0EF3F3 case _ => 0xBF6DD2D2)
    case 0x8 => (
      match i & 0x0F
      case 0x0 => 0x814CCDCD case 0x1 => 0x18140C0C case 0x2 => 0x26351313 case 0x3 => 0xC32FECEC
      case 0x4 => 0xBEE15F5F case 0x5 => 0x35A29797 case 0x6 => 0x88CC4444 case 0x7 => 0x2E391717
      case 0x8 => 0x9357C4C4 case 0x9 => 0x55F2A7A7 case 0xA => 0xFC827E7E case 0xB => 0x7A473D3D
      case 0xC => 0xC8AC6464 case 0xD => 0xBAE75D5D case 0xE => 0x322B1919 case _ => 0xE6957373)
    case 0x9 => (
      match i & 0x0F
      case 0x0 => 0xC0A06060 case 0x1 => 0x19988181 case 0x2 => 0x9ED14F4F case 0x3 => 0xA37FDCDC
      case 0x4 => 0x44662222 case 0x5 => 0x547E2A2A case 0x6 => 0x3BAB9090 case 0x7 => 0x0B838888
      case 0x8 => 0x8CCA4646 case 0x9 => 0xC729EEEE case 0xA => 0x6BD3B8B8 case 0xB => 0x283C1414
      case 0xC => 0xA779DEDE case 0xD => 0xBCE25E5E case 0xE => 0x161D0B0B case _ => 0xAD76DBDB)
    case 0xA => (
      match i & 0x0F
      case 0x0 => 0xDB3BE0E0 case 0x1 => 0x64563232 case 0x2 => 0x744E3A3A case 0x3 => 0x141E0A0A
      case 0x4 => 0x92DB4949 case 0x5 => 0x0C0A0606 case 0x6 => 0x486C2424 case 0x7 => 0xB8E45C5C
      case 0x8 => 0x9F5DC2C2 case 0x9 => 0xBD6ED3D3 case 0xA => 0x43EFACAC case 0xB => 0xC4A66262
      case 0xC => 0x39A89191 case 0xD => 0x31A49595 case 0xE => 0xD337E4E4 case _ => 0xF28B7979)
    case 0xB => (
      match i & 0x0F
      case 0x0 => 0xD532E7E7 case 0x1 => 0x8B43C8C8 case 0x2 => 0x6E593737 case 0x3 => 0xDAB76D6D
      case 0x4 => 0x018C8D8D case 0x5 => 0xB164D5D5 case 0x6 => 0x9CD24E4E case 0x7 => 0x49E0A9A9
      case 0x8 => 0xD8B46C6C case 0x9 => 0xACFA5656 case 0xA => 0xF307F4F4 case 0xB => 0xCF25EAEA
      case 0xC => 0xCAAF6565 case 0xD => 0xF48E7A7A case 0xE => 0x47E9AEAE case _ => 0x10180808)
    case 0xC => (
      match i & 0x0F
      case 0x0 => 0x6FD5BABA case 0x1 => 0xF0887878 case 0x2 => 0x4A6F2525 case 0x3 => 0x5C722E2E
      case 0x4 => 0x38241C1C case 0x5 => 0x57F1A6A6 case 0x6 => 0x73C7B4B4 case 0x7 => 0x9751C6C6
      case 0x8 => 0xCB23E8E8 case 0x9 => 0xA17CDDDD case 0xA => 0xE89C7474 case 0xB => 0x3E211F1F
      case 0xC => 0x96DD4B4B case 0xD => 0x61DCBDBD case 0xE => 0x0D868B8B case _ => 0x0F858A8A)
    case 0xD => (
      match i & 0x0F
      case 0x0 => 0xE0907070 case 0x1 => 0x7C423E3E case 0x2 => 0x71C4B5B5 case 0x3 => 0xCCAA6666
      case 0x4 => 0x90D84848 case 0x5 => 0x06050303 case 0x6 => 0xF701F6F6 case 0x7 => 0x1C120E0E
      case 0x8 => 0xC2A36161 case 0x9 => 0x6A5F3535 case 0xA => 0xAEF95757 case 0xB => 0x69D0B9B9
      case 0xC => 0x17918686 case 0xD => 0x9958C1C1 case 0xE => 0x3A271D1D case _ => 0x27B99E9E)
    case 0xE => (
      match i & 0x0F
      case 0x0 => 0xD938E1E1 case 0x1 => 0xEB13F8F8 case 0x2 => 0x2BB39898 case 0x3 => 0x22331111
      case 0x4 => 0xD2BB6969 case 0x5 => 0xA970D9D9 case 0x6 => 0x07898E8E case 0x7 => 0x33A79494
      case 0x8 => 0x2DB69B9B case 0x9 => 0x3C221E1E case 0xA => 0x15928787 case 0xB => 0xC920E9E9
      case 0xC => 0x8749CECE case 0xD => 0xAAFF5555 case 0xE => 0x50782828 case _ => 0xA57ADFDF)
    case _ => (
      match i & 0x0F
      case 0x0 => 0x038F8C8C case 0x1 => 0x59F8A1A1 case 0x2 => 0x09808989 case 0x3 => 0x1A170D0D
      case 0x4 => 0x65DABFBF case 0x5 => 0xD731E6E6 case 0x6 => 0x84C64242 case 0x7 => 0xD0B86868
      case 0x8 => 0x82C34141 case 0x9 => 0x29B09999 case 0xA => 0x5A772D2D case 0xB => 0x1E110F0F
      case 0xC => 0x7BCBB0B0 case 0xD => 0xA8FC5454 case 0xE => 0x6DD6BBBB case _ => 0x2C3A1616)
  }
}
