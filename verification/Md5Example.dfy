/** An example of appendix A.5 of RFC 1321: the digest of "abc", row by row of the listing. */
module Md5Example {
  import opened Bytes
  import opened Padding
  import opened Md5

  /** The words of the one padded block. */
  predicate IsBlock(x: seq<Word>) {
    |x| == 16 && x[0] == 0x80636261 && x[14] == 24 && forall i | 1 <= i < 16 && i != 14 :: x[i] == 0
  }

  /** One operation on given words. */
  lemma One(round: nat, i: nat, a: Word, b: Word, c: Word, d: Word, x: seq<Word>, k: nat, word: Word, t: Word, s: bv6, r: Word)
    requires |x| == 16 && i < 16 && k == K(round, i) && x[k] == word && t == T(round, i) && s == Shift(round, i)
    requires Turned(Sum(a, Aux(round, b, c, d), word, t), s, b) == r
    ensures Operation(round, i, a, b, c, d, x) == r
  {
  }

  lemma Next(x: seq<Word>, n: nat, v: Vars, w: Vars)
    requires |x| == 16 && Rows(INIT, x, n) == v && Row(n / 4, n % 4, v, x) == w
    ensures Rows(INIT, x, n + 1) == w
  {
  }

  lemma Row0(x: seq<Word>)
    requires IsBlock(x)
    ensures Row(0, 0, Vars(0x67452301, 0xEFCDAB89, 0x98BADCFE, 0x10325476), x)
            == Vars(0xD6D117B4, 0x7AD956F2, 0x2F6FBD72, 0x344A8432)
  {
    One(0, 0, 0x67452301, 0xEFCDAB89, 0x98BADCFE, 0x10325476, x, 0, 0x80636261, 0xD76AA478, 7, 0xD6D117B4);
    One(0, 1, 0x10325476, 0xD6D117B4, 0xEFCDAB89, 0x98BADCFE, x, 1, 0, 0xE8C7B756, 12, 0x344A8432);
    One(0, 2, 0x98BADCFE, 0x344A8432, 0xD6D117B4, 0xEFCDAB89, x, 2, 0, 0x242070DB, 17, 0x2F6FBD72);
    One(0, 3, 0xEFCDAB89, 0x2F6FBD72, 0x344A8432, 0xD6D117B4, x, 3, 0, 0xC1BDCEEE, 22, 0x7AD956F2);
    hide Operation, IsBlock;
  }

  lemma Row1(x: seq<Word>)
    requires IsBlock(x)
    ensures Row(0, 1, Vars(0xD6D117B4, 0x7AD956F2, 0x2F6FBD72, 0x344A8432), x)
            == Vars(0xC73741EF, 0x928D99F6, 0x207DC67B, 0x8BAC3051)
  {
    One(0, 4, 0xD6D117B4, 0x7AD956F2, 0x2F6FBD72, 0x344A8432, x, 4, 0, 0xF57C0FAF, 7, 0xC73741EF);
    One(0, 5, 0x344A8432, 0xC73741EF, 0x7AD956F2, 0x2F6FBD72, x, 5, 0, 0x4787C62A, 12, 0x8BAC3051);
    One(0, 6, 0x2F6FBD72, 0x8BAC3051, 0xC73741EF, 0x7AD956F2, x, 6, 0, 0xA8304613, 17, 0x207DC67B);
    One(0, 7, 0x7AD956F2, 0x207DC67B, 0x8BAC3051, 0xC73741EF, x, 7, 0, 0xFD469501, 22, 0x928D99F6);
    hide Operation, IsBlock;
  }

  lemma Row2(x: seq<Word>)
    requires IsBlock(x)
    ensures Row(0, 2, Vars(0xC73741EF, 0x928D99F6, 0x207DC67B, 0x8BAC3051), x)
            == Vars(0x854B3712, 0x5ED49596, 0x3020401C, 0x74E2F284)
  {
    One(0, 8, 0xC73741EF, 0x928D99F6, 0x207DC67B, 0x8BAC3051, x, 8, 0, 0x698098D8, 7, 0x854B3712);
    One(0, 9, 0x8BAC3051, 0x854B3712, 0x928D99F6, 0x207DC67B, x, 9, 0, 0x8B44F7AF, 12, 0x74E2F284);
    One(0, 10, 0x207DC67B, 0x74E2F284, 0x854B3712, 0x928D99F6, x, 10, 0, 0xFFFF5BB1, 17, 0x3020401C);
    One(0, 11, 0x928D99F6, 0x3020401C, 0x74E2F284, 0x854B3712, x, 11, 0, 0x895CD7BE, 22, 0x5ED49596);
    hide Operation, IsBlock;
  }

  lemma Row3(x: seq<Word>)
    requires IsBlock(x)
    ensures Row(0, 3, Vars(0x854B3712, 0x5ED49596, 0x3020401C, 0x74E2F284), x)
            == Vars(0xDDA9B9A6, 0x72AFF2E0, 0xE396856B, 0xA1051895)
  {
    One(0, 12, 0x854B3712, 0x5ED49596, 0x3020401C, 0x74E2F284, x, 12, 0, 0x6B901122, 7, 0xDDA9B9A6);
    One(0, 13, 0x74E2F284, 0xDDA9B9A6, 0x5ED49596, 0x3020401C, x, 13, 0, 0xFD987193, 12, 0xA1051895);
    One(0, 14, 0x3020401C, 0xA1051895, 0xDDA9B9A6, 0x5ED49596, x, 14, 0x00000018, 0xA679438E, 17, 0xE396856B);
    One(0, 15, 0x5ED49596, 0xE396856B, 0xA1051895, 0xDDA9B9A6, x, 15, 0, 0x49B40821, 22, 0x72AFF2E0);
    hide Operation, IsBlock;
  }

  lemma Row4(x: seq<Word>)
    requires IsBlock(x)
    ensures Row(1, 0, Vars(0xDDA9B9A6, 0x72AFF2E0, 0xE396856B, 0xA1051895), x)
            == Vars(0x3E9E9126, 0xB5B204E4, 0xE25E1652, 0x4A1D804E)
  {
    One(1, 0, 0xDDA9B9A6, 0x72AFF2E0, 0xE396856B, 0xA1051895, x, 1, 0, 0xF61E2562, 5, 0x3E9E9126);
    One(1, 1, 0xA1051895, 0x3E9E9126, 0x72AFF2E0, 0xE396856B, x, 6, 0, 0xC040B340, 9, 0x4A1D804E);
    One(1, 2, 0xE396856B, 0x4A1D804E, 0x3E9E9126, 0x72AFF2E0, x, 11, 0, 0x265E5A51, 14, 0xE25E1652);
    One(1, 3, 0x72AFF2E0, 0xE25E1652, 0x4A1D804E, 0x3E9E9126, x, 0, 0x80636261, 0xE9B6C7AA, 20, 0xB5B204E4);
    hide Operation, IsBlock;
  }

  lemma Row5(x: seq<Word>)
    requires IsBlock(x)
    ensures Row(1, 1, Vars(0x3E9E9126, 0xB5B204E4, 0xE25E1652, 0x4A1D804E), x)
            == Vars(0x59A8FFDA, 0x47092C07, 0xABFC7920, 0x6D002F1E)
  {
    One(1, 4, 0x3E9E9126, 0xB5B204E4, 0xE25E1652, 0x4A1D804E, x, 5, 0, 0xD62F105D, 5, 0x59A8FFDA);
    One(1, 5, 0x4A1D804E, 0x59A8FFDA, 0xB5B204E4, 0xE25E1652, x, 10, 0, 0x02441453, 9, 0x6D002F1E);
    One(1, 6, 0xE25E1652, 0x6D002F1E, 0x59A8FFDA, 0xB5B204E4, x, 15, 0, 0xD8A1E681, 14, 0xABFC7920);
    One(1, 7, 0xB5B204E4, 0xABFC7920, 0x6D002F1E, 0x59A8FFDA, x, 4, 0, 0xE7D3FBC8, 20, 0x47092C07);
    hide Operation, IsBlock;
  }

  lemma Row6(x: seq<Word>)
    requires IsBlock(x)
    ensures Row(1, 2, Vars(0x59A8FFDA, 0x47092C07, 0xABFC7920, 0x6D002F1E), x)
            == Vars(0xB7F268CF, 0x786ACB8F, 0xFE1623B1, 0x09388EFF)
  {
    One(1, 8, 0x59A8FFDA, 0x47092C07, 0xABFC7920, 0x6D002F1E, x, 9, 0, 0x21E1CDE6, 5, 0xB7F268CF);
    One(1, 9, 0x6D002F1E, 0xB7F268CF, 0x47092C07, 0xABFC7920, x, 14, 0x00000018, 0xC33707D6, 9, 0x09388EFF);
    One(1, 10, 0xABFC7920, 0x09388EFF, 0xB7F268CF, 0x47092C07, x, 3, 0, 0xF4D50D87, 14, 0xFE1623B1);
    One(1, 11, 0x47092C07, 0xFE1623B1, 0x09388EFF, 0xB7F268CF, x, 8, 0, 0x455A14ED, 20, 0x786ACB8F);
    hide Operation, IsBlock;
  }

  lemma Row7(x: seq<Word>)
    requires IsBlock(x)
    ensures Row(1, 3, Vars(0xB7F268CF, 0x786ACB8F, 0xFE1623B1, 0x09388EFF), x)
            == Vars(0x790A77FB, 0x726342D3, 0xA62884AA, 0x9F47E4F8)
  {
    One(1, 12, 0xB7F268CF, 0x786ACB8F, 0xFE1623B1, 0x09388EFF, x, 13, 0, 0xA9E3E905, 5, 0x790A77FB);
    One(1, 13, 0x09388EFF, 0x790A77FB, 0x786ACB8F, 0xFE1623B1, x, 2, 0, 0xFCEFA3F8, 9, 0x9F47E4F8);
    One(1, 14, 0xFE1623B1, 0x9F47E4F8, 0x790A77FB, 0x786ACB8F, x, 7, 0, 0x676F02D9, 14, 0xA62884AA);
    One(1, 15, 0x786ACB8F, 0xA62884AA, 0x9F47E4F8, 0x790A77FB, x, 12, 0, 0x8D2A4C8A, 20, 0x726342D3);
    hide Operation, IsBlock;
  }

  lemma Row8(x: seq<Word>)
    requires IsBlock(x)
    ensures Row(2, 0, Vars(0x790A77FB, 0x726342D3, 0xA62884AA, 0x9F47E4F8), x)
            == Vars(0xB3707EBF, 0x3B0875C7, 0x8D212FF5, 0x60127B2E)
  {
    One(2, 0, 0x790A77FB, 0x726342D3, 0xA62884AA, 0x9F47E4F8, x, 5, 0, 0xFFFA3942, 4, 0xB3707EBF);
    One(2, 1, 0x9F47E4F8, 0xB3707EBF, 0x726342D3, 0xA62884AA, x, 8, 0, 0x8771F681, 11, 0x60127B2E);
    One(2, 2, 0xA62884AA, 0x60127B2E, 0xB3707EBF, 0x726342D3, x, 11, 0, 0x6D9D6122, 16, 0x8D212FF5);
    One(2, 3, 0x726342D3, 0x8D212FF5, 0x60127B2E, 0xB3707EBF, x, 14, 0x00000018, 0xFDE5380C, 23, 0x3B0875C7);
    hide Operation, IsBlock;
  }

  lemma Row9(x: seq<Word>)
    requires IsBlock(x)
    ensures Row(2, 1, Vars(0xB3707EBF, 0x3B0875C7, 0x8D212FF5, 0x60127B2E), x)
            == Vars(0x21B117B9, 0x5A2F5EA5, 0x3575227E, 0x6E7429D5)
  {
    One(2, 4, 0xB3707EBF, 0x3B0875C7, 0x8D212FF5, 0x60127B2E, x, 1, 0, 0xA4BEEA44, 4, 0x21B117B9);
    One(2, 5, 0x60127B2E, 0x21B117B9, 0x3B0875C7, 0x8D212FF5, x, 4, 0, 0x4BDECFA9, 11, 0x6E7429D5);
    One(2, 6, 0x8D212FF5, 0x6E7429D5, 0x21B117B9, 0x3B0875C7, x, 7, 0, 0xF6BB4B60, 16, 0x3575227E);
    One(2, 7, 0x3B0875C7, 0x3575227E, 0x6E7429D5, 0x21B117B9, x, 10, 0, 0xBEBFBC70, 23, 0x5A2F5EA5);
    hide Operation, IsBlock;
  }

  lemma Row10(x: seq<Word>)
    requires IsBlock(x)
    ensures Row(2, 2, Vars(0x21B117B9, 0x5A2F5EA5, 0x3575227E, 0x6E7429D5), x)
            == Vars(0x11DE1779, 0x4C6124F4, 0x31C465CA, 0xFADCAA38)
  {
    One(2, 8, 0x21B117B9, 0x5A2F5EA5, 0x3575227E, 0x6E7429D5, x, 13, 0, 0x289B7EC6, 4, 0x11DE1779);
    One(2, 9, 0x6E7429D5, 0x11DE1779, 0x5A2F5EA5, 0x3575227E, x, 0, 0x80636261, 0xEAA127FA, 11, 0xFADCAA38);
    One(2, 10, 0x3575227E, 0xFADCAA38, 0x11DE1779, 0x5A2F5EA5, x, 3, 0, 0xD4EF3085, 16, 0x31C465CA);
    One(2, 11, 0x5A2F5EA5, 0x31C465CA, 0xFADCAA38, 0x11DE1779, x, 6, 0, 0x04881D05, 23, 0x4C6124F4);
    hide Operation, IsBlock;
  }

  lemma Row11(x: seq<Word>)
    requires IsBlock(x)
    ensures Row(2, 3, Vars(0x11DE1779, 0x4C6124F4, 0x31C465CA, 0xFADCAA38), x)
            == Vars(0x7F2E507B, 0x7BEB9700, 0x8FAE6399, 0x99D9679D)
  {
    One(2, 12, 0x11DE1779, 0x4C6124F4, 0x31C465CA, 0xFADCAA38, x, 9, 0, 0xD9D4D039, 4, 0x7F2E507B);
    One(2, 13, 0xFADCAA38, 0x7F2E507B, 0x4C6124F4, 0x31C465CA, x, 12, 0, 0xE6DB99E5, 11, 0x99D9679D);
    One(2, 14, 0x31C465CA, 0x99D9679D, 0x7F2E507B, 0x4C6124F4, x, 15, 0, 0x1FA27CF8, 16, 0x8FAE6399);
    One(2, 15, 0x4C6124F4, 0x8FAE6399, 0x99D9679D, 0x7F2E507B, x, 2, 0, 0xC4AC5665, 23, 0x7BEB9700);
    hide Operation, IsBlock;
  }

  lemma Row12(x: seq<Word>)
    requires IsBlock(x)
    ensures Row(3, 0, Vars(0x7F2E507B, 0x7BEB9700, 0x8FAE6399, 0x99D9679D), x)
            == Vars(0x7B201DF8, 0x8BF025C4, 0xB298CEFD, 0xF4E8E96E)
  {
    One(3, 0, 0x7F2E507B, 0x7BEB9700, 0x8FAE6399, 0x99D9679D, x, 0, 0x80636261, 0xF4292244, 6, 0x7B201DF8);
    One(3, 1, 0x99D9679D, 0x7B201DF8, 0x7BEB9700, 0x8FAE6399, x, 7, 0, 0x432AFF97, 10, 0xF4E8E96E);
    One(3, 2, 0x8FAE6399, 0xF4E8E96E, 0x7B201DF8, 0x7BEB9700, x, 14, 0x00000018, 0xAB9423A7, 15, 0xB298CEFD);
    One(3, 3, 0x7BEB9700, 0xB298CEFD, 0xF4E8E96E, 0x7B201DF8, x, 5, 0, 0xFC93A039, 21, 0x8BF025C4);
    hide Operation, IsBlock;
  }

  lemma Row13(x: seq<Word>)
    requires IsBlock(x)
    ensures Row(3, 1, Vars(0x7B201DF8, 0x8BF025C4, 0xB298CEFD, 0xF4E8E96E), x)
            == Vars(0x06CC5E8A, 0x3BFA2C27, 0x7D632DD0, 0x5B0D97AA)
  {
    One(3, 4, 0x7B201DF8, 0x8BF025C4, 0xB298CEFD, 0xF4E8E96E, x, 12, 0, 0x655B59C3, 6, 0x06CC5E8A);
    One(3, 5, 0xF4E8E96E, 0x06CC5E8A, 0x8BF025C4, 0xB298CEFD, x, 3, 0, 0x8F0CCC92, 10, 0x5B0D97AA);
    One(3, 6, 0xB298CEFD, 0x5B0D97AA, 0x06CC5E8A, 0x8BF025C4, x, 10, 0, 0xFFEFF47D, 15, 0x7D632DD0);
    One(3, 7, 0x8BF025C4, 0x7D632DD0, 0x5B0D97AA, 0x06CC5E8A, x, 1, 0, 0x85845DD1, 21, 0x3BFA2C27);
    hide Operation, IsBlock;
  }

  lemma Row14(x: seq<Word>)
    requires IsBlock(x)
    ensures Row(3, 2, Vars(0x06CC5E8A, 0x3BFA2C27, 0x7D632DD0, 0x5B0D97AA), x)
            == Vars(0x7F81CC35, 0x7327D604, 0x4F9DBE3F, 0x094454AB)
  {
    One(3, 8, 0x06CC5E8A, 0x3BFA2C27, 0x7D632DD0, 0x5B0D97AA, x, 8, 0, 0x6FA87E4F, 6, 0x7F81CC35);
    One(3, 9, 0x5B0D97AA, 0x7F81CC35, 0x3BFA2C27, 0x7D632DD0, x, 15, 0, 0xFE2CE6E0, 10, 0x094454AB);
    One(3, 10, 0x7D632DD0, 0x094454AB, 0x7F81CC35, 0x3BFA2C27, x, 6, 0, 0xA3014314, 15, 0x4F9DBE3F);
    One(3, 11, 0x3BFA2C27, 0x4F9DBE3F, 0x094454AB, 0x7F81CC35, x, 13, 0, 0x4E0811A1, 21, 0x7327D604);
    hide Operation, IsBlock;
  }

  lemma Row15(x: seq<Word>)
    requires IsBlock(x)
    ensures Row(3, 3, Vars(0x7F81CC35, 0x7327D604, 0x4F9DBE3F, 0x094454AB), x)
            == Vars(0x310ADE8F, 0xC08226B3, 0xE484B9D8, 0x624D8CB2)
  {
    One(3, 12, 0x7F81CC35, 0x7327D604, 0x4F9DBE3F, 0x094454AB, x, 4, 0, 0xF7537E82, 6, 0x310ADE8F);
    One(3, 13, 0x094454AB, 0x310ADE8F, 0x7327D604, 0x4F9DBE3F, x, 11, 0, 0xBD3AF235, 10, 0x624D8CB2);
    One(3, 14, 0x4F9DBE3F, 0x624D8CB2, 0x310ADE8F, 0x7327D604, x, 2, 0, 0x2AD7D2BB, 15, 0xE484B9D8);
    One(3, 15, 0x7327D604, 0xE484B9D8, 0x624D8CB2, 0x310ADE8F, x, 9, 0, 0xEB86D391, 21, 0xC08226B3);
    hide Operation, IsBlock;
  }

  lemma AllRows(x: seq<Word>)
    requires IsBlock(x)
    ensures Rows(INIT, x, 16) == Vars(0x310ADE8F, 0xC08226B3, 0xE484B9D8, 0x624D8CB2)
  {
    assert Rows(INIT, x, 0) == INIT;
    hide Rows, Row, IsBlock;
    var v0 := INIT;
    var v1 := Vars(0xD6D117B4, 0x7AD956F2, 0x2F6FBD72, 0x344A8432);
    Row0(x);
    Next(x, 0, v0, v1);
    var v2 := Vars(0xC73741EF, 0x928D99F6, 0x207DC67B, 0x8BAC3051);
    Row1(x);
    Next(x, 1, v1, v2);
    var v3 := Vars(0x854B3712, 0x5ED49596, 0x3020401C, 0x74E2F284);
    Row2(x);
    Next(x, 2, v2, v3);
    var v4 := Vars(0xDDA9B9A6, 0x72AFF2E0, 0xE396856B, 0xA1051895);
    Row3(x);
    Next(x, 3, v3, v4);
    var v5 := Vars(0x3E9E9126, 0xB5B204E4, 0xE25E1652, 0x4A1D804E);
    Row4(x);
    Next(x, 4, v4, v5);
    var v6 := Vars(0x59A8FFDA, 0x47092C07, 0xABFC7920, 0x6D002F1E);
    Row5(x);
    Next(x, 5, v5, v6);
    var v7 := Vars(0xB7F268CF, 0x786ACB8F, 0xFE1623B1, 0x09388EFF);
    Row6(x);
    Next(x, 6, v6, v7);
    var v8 := Vars(0x790A77FB, 0x726342D3, 0xA62884AA, 0x9F47E4F8);
    Row7(x);
    Next(x, 7, v7, v8);
    var v9 := Vars(0xB3707EBF, 0x3B0875C7, 0x8D212FF5, 0x60127B2E);
    Row8(x);
    Next(x, 8, v8, v9);
    var v10 := Vars(0x21B117B9, 0x5A2F5EA5, 0x3575227E, 0x6E7429D5);
    Row9(x);
    Next(x, 9, v9, v10);
    var v11 := Vars(0x11DE1779, 0x4C6124F4, 0x31C465CA, 0xFADCAA38);
    Row10(x);
    Next(x, 10, v10, v11);
    var v12 := Vars(0x7F2E507B, 0x7BEB9700, 0x8FAE6399, 0x99D9679D);
    Row11(x);
    Next(x, 11, v11, v12);
    var v13 := Vars(0x7B201DF8, 0x8BF025C4, 0xB298CEFD, 0xF4E8E96E);
    Row12(x);
    Next(x, 12, v12, v13);
    var v14 := Vars(0x06CC5E8A, 0x3BFA2C27, 0x7D632DD0, 0x5B0D97AA);
    Row13(x);
    Next(x, 13, v13, v14);
    var v15 := Vars(0x7F81CC35, 0x7327D604, 0x4F9DBE3F, 0x094454AB);
    Row14(x);
    Next(x, 14, v14, v15);
    var v16 := Vars(0x310ADE8F, 0xC08226B3, 0xE484B9D8, 0x624D8CB2);
    Row15(x);
    Next(x, 15, v15, v16);
  }

  const ABC: seq<Octet> := [0x61, 0x62, 0x63]

  lemma OneBlock()
    ensures var p := Padded(ABC, LengthField(24)); |p| == 64 && Chain(p) == Compress(INIT, p)
  {
    var p := Padded(ABC, LengthField(24));
    assert |ABC| == 3 && |p| == 64;
    assert p[..0] == [] && p[0..] == p;
  }

  lemma LengthOf24()
    ensures var f := LengthField(24); f[0] == 24 && forall i | 1 <= i < 8 :: f[i] == 0
  {
    forall i | 0 <= i < 8 ensures LengthField(24)[i] == if i == 0 then 24 else 0 {
      OctetsOf24(i);
    }
  }

  lemma OctetsOfAbc()
    ensures var p := Padded(ABC, LengthField(24));
            && |p| == 64 && p[0] == 0x61 && p[1] == 0x62 && p[2] == 0x63 && p[3] == 0x80 && p[56] == 24
            && forall i | 4 <= i < 64 && i != 56 :: p[i] == 0
  {
    var p, f := Padded(ABC, LengthField(24)), LengthField(24);
    LengthOf24();
    hide LengthField;
    assert p == ABC + [0x80] + Zeros(52) + f;
    forall i | 4 <= i < 64 && i != 56 ensures p[i] == 0 {
      if i >= 56 {
        assert p[i] == f[i - 56];
      }
    }
    assert p[56] == f[0];
  }

  lemma FourOctets(m: seq<Octet>)
    requires |m| == 4
    ensures m[1] == 0 && m[2] == 0 && m[3] == 0 ==> LittleWord(m) == m[0] as Word
    ensures m == [0x61, 0x62, 0x63, 0x80] ==> LittleWord(m) == 0x80636261
  {
  }

  lemma BlockOfAbc()
    ensures var p := Padded(ABC, LengthField(24)); |p| == 64 && IsBlock(BlockWords(p))
  {
    OctetsOfAbc();
    hide LittleWord, Padded, LengthField;
    var p := Padded(ABC, LengthField(24));
    forall i | 0 <= i < 16 ensures BlockWords(p)[i] == if i == 0 then 0x80636261 else if i == 14 then 24 else 0 {
      FourOctets(p[4 * i..4 * i + 4]);
    }
  }

  /** A message digest that the RFC gives. */
  lemma DigestOfAbc()
    ensures Digest(ABC) == [
      0x90, 0x01, 0x50, 0x98, 0x3C, 0xD2, 0x4F, 0xB0,
      0xD6, 0x96, 0x3F, 0x7D, 0x28, 0xE1, 0x7F, 0x72]
  {
    OneBlock();
    BlockOfAbc();
    hide Rows, Row, Padded, BlockWords, LengthField, Chain;
    AllRows(BlockWords(Padded(ABC, LengthField(24))));
    Sums();
    assert 8 * |ABC| == 24;
  }

  lemma Sums()
    ensures Plus(INIT, Vars(0x310ADE8F, 0xC08226B3, 0xE484B9D8, 0x624D8CB2)) == Vars(0x98500190, 0xB04FD23C, 0x7D3F96D6, 0x727FE128)
    ensures WordOctets(0x98500190) + WordOctets(0xB04FD23C) + WordOctets(0x7D3F96D6) + WordOctets(0x727FE128) == [
      0x90, 0x01, 0x50, 0x98, 0x3C, 0xD2, 0x4F, 0xB0,
      0xD6, 0x96, 0x3F, 0x7D, 0x28, 0xE1, 0x7F, 0x72]
  {
  }
}
