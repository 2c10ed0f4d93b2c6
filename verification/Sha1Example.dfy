/** The example of appendix A of FIPS 180-1: the digest of "abc", with the schedule and the state behind every round. */
module Sha1Example {
  import opened Bytes
  import opened Padding
  import opened Sha1

  lemma Next(w: seq<Word>, t: nat, s: State, x: Word, s': State)
    requires |w| == 16 && Rounds(w, INIT, t) == s && Schedule(w, t) == x && Round(t, s, x) == s'
    ensures Rounds(w, INIT, t + 1) == s'
  {
  }

  lemma Mixed(w: seq<Word>, t: nat, w3: Word, w8: Word, w14: Word, w16: Word, x: Word)
    requires |w| == 16 && t >= 16 && Mix(w3, w8, w14, w16) == x
    requires Schedule(w, t - 3) == w3 && Schedule(w, t - 8) == w8
    requires Schedule(w, t - 14) == w14 && Schedule(w, t - 16) == w16
    ensures Schedule(w, t) == x
  {
  }

  lemma Schedule16(w: seq<Word>)
    requires |w| == 16
             && Schedule(w, 0) == 0x61626380 && Schedule(w, 1) == 0 && Schedule(w, 2) == 0
             && Schedule(w, 3) == 0 && Schedule(w, 4) == 0 && Schedule(w, 5) == 0
             && Schedule(w, 6) == 0 && Schedule(w, 7) == 0 && Schedule(w, 8) == 0
             && Schedule(w, 9) == 0 && Schedule(w, 10) == 0 && Schedule(w, 11) == 0
             && Schedule(w, 12) == 0 && Schedule(w, 13) == 0 && Schedule(w, 14) == 0
             && Schedule(w, 15) == 0x00000018
    ensures Schedule(w, 16) == 0xC2C4C700 && Schedule(w, 17) == 0 && Schedule(w, 18) == 0x00000030
            && Schedule(w, 19) == 0x85898E01 && Schedule(w, 20) == 0 && Schedule(w, 21) == 0x00000060
            && Schedule(w, 22) == 0x0B131C03 && Schedule(w, 23) == 0x00000030 && Schedule(w, 24) == 0x85898EC1
            && Schedule(w, 25) == 0x16263806 && Schedule(w, 26) == 0 && Schedule(w, 27) == 0x00000180
            && Schedule(w, 28) == 0x2C4C700C && Schedule(w, 29) == 0x000000F0 && Schedule(w, 30) == 0x93AFB507
            && Schedule(w, 31) == 0x5898E048
  {
    hide Schedule;
    Mixed(w, 16, 0x00000000, 0x00000000, 0x00000000, 0x61626380, 0xC2C4C700);
    Mixed(w, 17, 0x00000000, 0x00000000, 0x00000000, 0x00000000, 0x00000000);
    Mixed(w, 18, 0x00000018, 0x00000000, 0x00000000, 0x00000000, 0x00000030);
    Mixed(w, 19, 0xC2C4C700, 0x00000000, 0x00000000, 0x00000000, 0x85898E01);
    Mixed(w, 20, 0x00000000, 0x00000000, 0x00000000, 0x00000000, 0x00000000);
    Mixed(w, 21, 0x00000030, 0x00000000, 0x00000000, 0x00000000, 0x00000060);
    Mixed(w, 22, 0x85898E01, 0x00000000, 0x00000000, 0x00000000, 0x0B131C03);
    Mixed(w, 23, 0x00000000, 0x00000018, 0x00000000, 0x00000000, 0x00000030);
    Mixed(w, 24, 0x00000060, 0xC2C4C700, 0x00000000, 0x00000000, 0x85898EC1);
    Mixed(w, 25, 0x0B131C03, 0x00000000, 0x00000000, 0x00000000, 0x16263806);
    Mixed(w, 26, 0x00000030, 0x00000030, 0x00000000, 0x00000000, 0x00000000);
    Mixed(w, 27, 0x85898EC1, 0x85898E01, 0x00000000, 0x00000000, 0x00000180);
    Mixed(w, 28, 0x16263806, 0x00000000, 0x00000000, 0x00000000, 0x2C4C700C);
    Mixed(w, 29, 0x00000000, 0x00000060, 0x00000018, 0x00000000, 0x000000F0);
    Mixed(w, 30, 0x00000180, 0x0B131C03, 0xC2C4C700, 0x00000000, 0x93AFB507);
    Mixed(w, 31, 0x2C4C700C, 0x00000030, 0x00000000, 0x00000018, 0x5898E048);
  }

  lemma Schedule32(w: seq<Word>)
    requires |w| == 16
             && Schedule(w, 16) == 0xC2C4C700 && Schedule(w, 17) == 0 && Schedule(w, 18) == 0x00000030
             && Schedule(w, 19) == 0x85898E01 && Schedule(w, 20) == 0 && Schedule(w, 21) == 0x00000060
             && Schedule(w, 22) == 0x0B131C03 && Schedule(w, 23) == 0x00000030 && Schedule(w, 24) == 0x85898EC1
             && Schedule(w, 25) == 0x16263806 && Schedule(w, 26) == 0 && Schedule(w, 27) == 0x00000180
             && Schedule(w, 28) == 0x2C4C700C && Schedule(w, 29) == 0x000000F0 && Schedule(w, 30) == 0x93AFB507
             && Schedule(w, 31) == 0x5898E048
    ensures Schedule(w, 32) == 0x8E9A9202 && Schedule(w, 33) == 0x00000600 && Schedule(w, 34) == 0xB131C0F0
            && Schedule(w, 35) == 0x16263BC6 && Schedule(w, 36) == 0x4EBED41E && Schedule(w, 37) == 0x626380A1
            && Schedule(w, 38) == 0x16263806 && Schedule(w, 39) == 0x000018C0 && Schedule(w, 40) == 0xD2E138C4
            && Schedule(w, 41) == 0x00000F00 && Schedule(w, 42) == 0x3AFB5079 && Schedule(w, 43) == 0x898E04E5
            && Schedule(w, 44) == 0xE2BA3C2B && Schedule(w, 45) == 0x000060C0 && Schedule(w, 46) == 0x053A37CD
            && Schedule(w, 47) == 0x74458547
  {
    hide Schedule;
    Mixed(w, 32, 0x000000F0, 0x85898EC1, 0x00000030, 0xC2C4C700, 0x8E9A9202);
    Mixed(w, 33, 0x93AFB507, 0x16263806, 0x85898E01, 0x00000000, 0x00000600);
    Mixed(w, 34, 0x5898E048, 0x00000000, 0x00000000, 0x00000030, 0xB131C0F0);
    Mixed(w, 35, 0x8E9A9202, 0x00000180, 0x00000060, 0x85898E01, 0x16263BC6);
    Mixed(w, 36, 0x00000600, 0x2C4C700C, 0x0B131C03, 0x00000000, 0x4EBED41E);
    Mixed(w, 37, 0xB131C0F0, 0x000000F0, 0x00000030, 0x00000060, 0x626380A1);
    Mixed(w, 38, 0x16263BC6, 0x93AFB507, 0x85898EC1, 0x0B131C03, 0x16263806);
    Mixed(w, 39, 0x4EBED41E, 0x5898E048, 0x16263806, 0x00000030, 0x000018C0);
    Mixed(w, 40, 0x626380A1, 0x8E9A9202, 0x00000000, 0x85898EC1, 0xD2E138C4);
    Mixed(w, 41, 0x16263806, 0x00000600, 0x00000180, 0x16263806, 0x00000F00);
    Mixed(w, 42, 0x000018C0, 0xB131C0F0, 0x2C4C700C, 0x00000000, 0x3AFB5079);
    Mixed(w, 43, 0xD2E138C4, 0x16263BC6, 0x000000F0, 0x00000180, 0x898E04E5);
    Mixed(w, 44, 0x00000F00, 0x4EBED41E, 0x93AFB507, 0x2C4C700C, 0xE2BA3C2B);
    Mixed(w, 45, 0x3AFB5079, 0x626380A1, 0x5898E048, 0x000000F0, 0x000060C0);
    Mixed(w, 46, 0x898E04E5, 0x16263806, 0x8E9A9202, 0x93AFB507, 0x053A37CD);
    Mixed(w, 47, 0xE2BA3C2B, 0x000018C0, 0x00000600, 0x5898E048, 0x74458547);
  }

  lemma Schedule48(w: seq<Word>)
    requires |w| == 16
             && Schedule(w, 32) == 0x8E9A9202 && Schedule(w, 33) == 0x00000600 && Schedule(w, 34) == 0xB131C0F0
             && Schedule(w, 35) == 0x16263BC6 && Schedule(w, 36) == 0x4EBED41E && Schedule(w, 37) == 0x626380A1
             && Schedule(w, 38) == 0x16263806 && Schedule(w, 39) == 0x000018C0 && Schedule(w, 40) == 0xD2E138C4
             && Schedule(w, 41) == 0x00000F00 && Schedule(w, 42) == 0x3AFB5079 && Schedule(w, 43) == 0x898E04E5
             && Schedule(w, 44) == 0xE2BA3C2B && Schedule(w, 45) == 0x000060C0 && Schedule(w, 46) == 0x053A37CD
             && Schedule(w, 47) == 0x74458547
    ensures Schedule(w, 48) == 0xDA9415ED && Schedule(w, 49) == 0x26380A16 && Schedule(w, 50) == 0x626383A1
            && Schedule(w, 51) == 0x4EBF54DE && Schedule(w, 52) == 0x3835B44B && Schedule(w, 53) == 0x0000F600
            && Schedule(w, 54) == 0x1E84C7A3 && Schedule(w, 55) == 0x98E04D98 && Schedule(w, 56) == 0x651D16A0
            && Schedule(w, 57) == 0x62658CA1 && Schedule(w, 58) == 0x458544D6 && Schedule(w, 59) == 0x44584CB7
            && Schedule(w, 60) == 0x7BA06619 && Schedule(w, 61) == 0x6380AEA2 && Schedule(w, 62) == 0x0AE55269
            && Schedule(w, 63) == 0x627B49A1
  {
    hide Schedule;
    Mixed(w, 48, 0x000060C0, 0xD2E138C4, 0xB131C0F0, 0x8E9A9202, 0xDA9415ED);
    Mixed(w, 49, 0x053A37CD, 0x00000F00, 0x16263BC6, 0x00000600, 0x26380A16);
    Mixed(w, 50, 0x74458547, 0x3AFB5079, 0x4EBED41E, 0xB131C0F0, 0x626383A1);
    Mixed(w, 51, 0xDA9415ED, 0x898E04E5, 0x626380A1, 0x16263BC6, 0x4EBF54DE);
    Mixed(w, 52, 0x26380A16, 0xE2BA3C2B, 0x16263806, 0x4EBED41E, 0x3835B44B);
    Mixed(w, 53, 0x626383A1, 0x000060C0, 0x000018C0, 0x626380A1, 0x0000F600);
    Mixed(w, 54, 0x4EBF54DE, 0x053A37CD, 0xD2E138C4, 0x16263806, 0x1E84C7A3);
    Mixed(w, 55, 0x3835B44B, 0x74458547, 0x00000F00, 0x000018C0, 0x98E04D98);
    Mixed(w, 56, 0x0000F600, 0xDA9415ED, 0x3AFB5079, 0xD2E138C4, 0x651D16A0);
    Mixed(w, 57, 0x1E84C7A3, 0x26380A16, 0x898E04E5, 0x00000F00, 0x62658CA1);
    Mixed(w, 58, 0x98E04D98, 0x626383A1, 0xE2BA3C2B, 0x3AFB5079, 0x458544D6);
    Mixed(w, 59, 0x651D16A0, 0x4EBF54DE, 0x000060C0, 0x898E04E5, 0x44584CB7);
    Mixed(w, 60, 0x62658CA1, 0x3835B44B, 0x053A37CD, 0xE2BA3C2B, 0x7BA06619);
    Mixed(w, 61, 0x458544D6, 0x0000F600, 0x74458547, 0x000060C0, 0x6380AEA2);
    Mixed(w, 62, 0x44584CB7, 0x1E84C7A3, 0xDA9415ED, 0x053A37CD, 0x0AE55269);
    Mixed(w, 63, 0x7BA06619, 0x98E04D98, 0x26380A16, 0x74458547, 0x627B49A1);
  }

  lemma Schedule64(w: seq<Word>)
    requires |w| == 16
             && Schedule(w, 48) == 0xDA9415ED && Schedule(w, 49) == 0x26380A16 && Schedule(w, 50) == 0x626383A1
             && Schedule(w, 51) == 0x4EBF54DE && Schedule(w, 52) == 0x3835B44B && Schedule(w, 53) == 0x0000F600
             && Schedule(w, 54) == 0x1E84C7A3 && Schedule(w, 55) == 0x98E04D98 && Schedule(w, 56) == 0x651D16A0
             && Schedule(w, 57) == 0x62658CA1 && Schedule(w, 58) == 0x458544D6 && Schedule(w, 59) == 0x44584CB7
             && Schedule(w, 60) == 0x7BA06619 && Schedule(w, 61) == 0x6380AEA2 && Schedule(w, 62) == 0x0AE55269
             && Schedule(w, 63) == 0x627B49A1
    ensures Schedule(w, 64) == 0x7CD45C9D && Schedule(w, 65) == 0x000F0000 && Schedule(w, 66) == 0xFB50753A
            && Schedule(w, 67) == 0xEC6765E8 && Schedule(w, 68) == 0xBA3C2BE2 && Schedule(w, 69) == 0x0060C000
            && Schedule(w, 70) == 0x3A37CD05 && Schedule(w, 71) == 0x458546F4 && Schedule(w, 72) == 0xB8599DD6
            && Schedule(w, 73) == 0x380A1A26 && Schedule(w, 74) == 0x01E02203 && Schedule(w, 75) == 0xE7CC3456
            && Schedule(w, 76) == 0xE6E60B69 && Schedule(w, 77) == 0x00F60A00 && Schedule(w, 78) == 0x5795EF4F
            && Schedule(w, 79) == 0x822E0879
  {
    hide Schedule;
    Mixed(w, 64, 0x6380AEA2, 0x651D16A0, 0x626383A1, 0xDA9415ED, 0x7CD45C9D);
    Mixed(w, 65, 0x0AE55269, 0x62658CA1, 0x4EBF54DE, 0x26380A16, 0x000F0000);
    Mixed(w, 66, 0x627B49A1, 0x458544D6, 0x3835B44B, 0x626383A1, 0xFB50753A);
    Mixed(w, 67, 0x7CD45C9D, 0x44584CB7, 0x0000F600, 0x4EBF54DE, 0xEC6765E8);
    Mixed(w, 68, 0x000F0000, 0x7BA06619, 0x1E84C7A3, 0x3835B44B, 0xBA3C2BE2);
    Mixed(w, 69, 0xFB50753A, 0x6380AEA2, 0x98E04D98, 0x0000F600, 0x0060C000);
    Mixed(w, 70, 0xEC6765E8, 0x0AE55269, 0x651D16A0, 0x1E84C7A3, 0x3A37CD05);
    Mixed(w, 71, 0xBA3C2BE2, 0x627B49A1, 0x62658CA1, 0x98E04D98, 0x458546F4);
    Mixed(w, 72, 0x0060C000, 0x7CD45C9D, 0x458544D6, 0x651D16A0, 0xB8599DD6);
    Mixed(w, 73, 0x3A37CD05, 0x000F0000, 0x44584CB7, 0x62658CA1, 0x380A1A26);
    Mixed(w, 74, 0x458546F4, 0xFB50753A, 0x7BA06619, 0x458544D6, 0x01E02203);
    Mixed(w, 75, 0xB8599DD6, 0xEC6765E8, 0x6380AEA2, 0x44584CB7, 0xE7CC3456);
    Mixed(w, 76, 0x380A1A26, 0xBA3C2BE2, 0x0AE55269, 0x7BA06619, 0xE6E60B69);
    Mixed(w, 77, 0x01E02203, 0x0060C000, 0x627B49A1, 0x6380AEA2, 0x00F60A00);
    Mixed(w, 78, 0xE7CC3456, 0x3A37CD05, 0x7CD45C9D, 0x0AE55269, 0x5795EF4F);
    Mixed(w, 79, 0xE6E60B69, 0x458546F4, 0x000F0000, 0x627B49A1, 0x822E0879);
  }

  lemma Rounds0(w: seq<Word>)
    requires |w| == 16 && Rounds(w, INIT, 0) == State(0x67452301, 0xEFCDAB89, 0x98BADCFE, 0x10325476, 0xC3D2E1F0)
    requires Schedule(w, 0) == 0x61626380 && Schedule(w, 1) == 0 && Schedule(w, 2) == 0
             && Schedule(w, 3) == 0 && Schedule(w, 4) == 0 && Schedule(w, 5) == 0
             && Schedule(w, 6) == 0 && Schedule(w, 7) == 0 && Schedule(w, 8) == 0
             && Schedule(w, 9) == 0 && Schedule(w, 10) == 0 && Schedule(w, 11) == 0
             && Schedule(w, 12) == 0 && Schedule(w, 13) == 0 && Schedule(w, 14) == 0
             && Schedule(w, 15) == 0x00000018 && Schedule(w, 16) == 0xC2C4C700 && Schedule(w, 17) == 0
             && Schedule(w, 18) == 0x00000030 && Schedule(w, 19) == 0x85898E01
    ensures Rounds(w, INIT, 20) == State(0xFD9E1D7D, 0xDC64901D, 0x20AA99CA, 0xD3A49608, 0xC82F758B)
  {
    hide Rounds, Schedule;
    var s0 := State(0x67452301, 0xEFCDAB89, 0x98BADCFE, 0x10325476, 0xC3D2E1F0);
    var s1 := State(0x0116FC33, 0x67452301, 0x7BF36AE2, 0x98BADCFE, 0x10325476);
    Next(w, 0, s0, 0x61626380, s1);
    var s2 := State(0x8990536D, 0x0116FC33, 0x59D148C0, 0x7BF36AE2, 0x98BADCFE);
    Next(w, 1, s1, 0x00000000, s2);
    var s3 := State(0xA1390F08, 0x8990536D, 0xC045BF0C, 0x59D148C0, 0x7BF36AE2);
    Next(w, 2, s2, 0x00000000, s3);
    var s4 := State(0xCDD8E11B, 0xA1390F08, 0x626414DB, 0xC045BF0C, 0x59D148C0);
    Next(w, 3, s3, 0x00000000, s4);
    var s5 := State(0xCFD499DE, 0xCDD8E11B, 0x284E43C2, 0x626414DB, 0xC045BF0C);
    Next(w, 4, s4, 0x00000000, s5);
    var s6 := State(0x3FC7CA40, 0xCFD499DE, 0xF3763846, 0x284E43C2, 0x626414DB);
    Next(w, 5, s5, 0x00000000, s6);
    var s7 := State(0x993E30C1, 0x3FC7CA40, 0xB3F52677, 0xF3763846, 0x284E43C2);
    Next(w, 6, s6, 0x00000000, s7);
    var s8 := State(0x9E8C07D4, 0x993E30C1, 0x0FF1F290, 0xB3F52677, 0xF3763846);
    Next(w, 7, s7, 0x00000000, s8);
    var s9 := State(0x4B6AE328, 0x9E8C07D4, 0x664F8C30, 0x0FF1F290, 0xB3F52677);
    Next(w, 8, s8, 0x00000000, s9);
    var s10 := State(0x8351F929, 0x4B6AE328, 0x27A301F5, 0x664F8C30, 0x0FF1F290);
    Next(w, 9, s9, 0x00000000, s10);
    var s11 := State(0xFBDA9E89, 0x8351F929, 0x12DAB8CA, 0x27A301F5, 0x664F8C30);
    Next(w, 10, s10, 0x00000000, s11);
    var s12 := State(0x63188FE4, 0xFBDA9E89, 0x60D47E4A, 0x12DAB8CA, 0x27A301F5);
    Next(w, 11, s11, 0x00000000, s12);
    var s13 := State(0x4607B664, 0x63188FE4, 0x7EF6A7A2, 0x60D47E4A, 0x12DAB8CA);
    Next(w, 12, s12, 0x00000000, s13);
    var s14 := State(0x9128F695, 0x4607B664, 0x18C623F9, 0x7EF6A7A2, 0x60D47E4A);
    Next(w, 13, s13, 0x00000000, s14);
    var s15 := State(0x196BEE77, 0x9128F695, 0x1181ED99, 0x18C623F9, 0x7EF6A7A2);
    Next(w, 14, s14, 0x00000000, s15);
    var s16 := State(0x20BDD62F, 0x196BEE77, 0x644A3DA5, 0x1181ED99, 0x18C623F9);
    Next(w, 15, s15, 0x00000018, s16);
    var s17 := State(0x4E925823, 0x20BDD62F, 0xC65AFB9D, 0x644A3DA5, 0x1181ED99);
    Next(w, 16, s16, 0xC2C4C700, s17);
    var s18 := State(0x82AA6728, 0x4E925823, 0xC82F758B, 0xC65AFB9D, 0x644A3DA5);
    Next(w, 17, s17, 0x00000000, s18);
    var s19 := State(0xDC64901D, 0x82AA6728, 0xD3A49608, 0xC82F758B, 0xC65AFB9D);
    Next(w, 18, s18, 0x00000030, s19);
    var s20 := State(0xFD9E1D7D, 0xDC64901D, 0x20AA99CA, 0xD3A49608, 0xC82F758B);
    Next(w, 19, s19, 0x85898E01, s20);
  }

  lemma Rounds20(w: seq<Word>)
    requires |w| == 16 && Rounds(w, INIT, 20) == State(0xFD9E1D7D, 0xDC64901D, 0x20AA99CA, 0xD3A49608, 0xC82F758B)
    requires Schedule(w, 20) == 0 && Schedule(w, 21) == 0x00000060 && Schedule(w, 22) == 0x0B131C03
             && Schedule(w, 23) == 0x00000030 && Schedule(w, 24) == 0x85898EC1 && Schedule(w, 25) == 0x16263806
             && Schedule(w, 26) == 0 && Schedule(w, 27) == 0x00000180 && Schedule(w, 28) == 0x2C4C700C
             && Schedule(w, 29) == 0x000000F0 && Schedule(w, 30) == 0x93AFB507 && Schedule(w, 31) == 0x5898E048
             && Schedule(w, 32) == 0x8E9A9202 && Schedule(w, 33) == 0x00000600 && Schedule(w, 34) == 0xB131C0F0
             && Schedule(w, 35) == 0x16263BC6 && Schedule(w, 36) == 0x4EBED41E && Schedule(w, 37) == 0x626380A1
             && Schedule(w, 38) == 0x16263806 && Schedule(w, 39) == 0x000018C0
    ensures Rounds(w, INIT, 40) == State(0x32DE1CBA, 0x4C986405, 0xF718E5CF, 0x03D447F6, 0xF72EEC32)
  {
    hide Rounds, Schedule;
    var s20 := State(0xFD9E1D7D, 0xDC64901D, 0x20AA99CA, 0xD3A49608, 0xC82F758B);
    var s21 := State(0x1A37B0CA, 0xFD9E1D7D, 0x77192407, 0x20AA99CA, 0xD3A49608);
    Next(w, 20, s20, 0x00000000, s21);
    var s22 := State(0x33A23BFC, 0x1A37B0CA, 0x7F67875F, 0x77192407, 0x20AA99CA);
    Next(w, 21, s21, 0x00000060, s22);
    var s23 := State(0x21283486, 0x33A23BFC, 0x868DEC32, 0x7F67875F, 0x77192407);
    Next(w, 22, s22, 0x0B131C03, s23);
    var s24 := State(0xD541F12D, 0x21283486, 0x0CE88EFF, 0x868DEC32, 0x7F67875F);
    Next(w, 23, s23, 0x00000030, s24);
    var s25 := State(0xC7567DC6, 0xD541F12D, 0x884A0D21, 0x0CE88EFF, 0x868DEC32);
    Next(w, 24, s24, 0x85898EC1, s25);
    var s26 := State(0x48413BA4, 0xC7567DC6, 0x75507C4B, 0x884A0D21, 0x0CE88EFF);
    Next(w, 25, s25, 0x16263806, s26);
    var s27 := State(0xBE35FBD5, 0x48413BA4, 0xB1D59F71, 0x75507C4B, 0x884A0D21);
    Next(w, 26, s26, 0x00000000, s27);
    var s28 := State(0x4AA84D97, 0xBE35FBD5, 0x12104EE9, 0xB1D59F71, 0x75507C4B);
    Next(w, 27, s27, 0x00000180, s28);
    var s29 := State(0x8370B52E, 0x4AA84D97, 0x6F8D7EF5, 0x12104EE9, 0xB1D59F71);
    Next(w, 28, s28, 0x2C4C700C, s29);
    var s30 := State(0xC5FBAF5D, 0x8370B52E, 0xD2AA1365, 0x6F8D7EF5, 0x12104EE9);
    Next(w, 29, s29, 0x000000F0, s30);
    var s31 := State(0x1267B407, 0xC5FBAF5D, 0xA0DC2D4B, 0xD2AA1365, 0x6F8D7EF5);
    Next(w, 30, s30, 0x93AFB507, s31);
    var s32 := State(0x3B845D33, 0x1267B407, 0x717EEBD7, 0xA0DC2D4B, 0xD2AA1365);
    Next(w, 31, s31, 0x5898E048, s32);
    var s33 := State(0x046FAA0A, 0x3B845D33, 0xC499ED01, 0x717EEBD7, 0xA0DC2D4B);
    Next(w, 32, s32, 0x8E9A9202, s33);
    var s34 := State(0x2C0EBC11, 0x046FAA0A, 0xCEE1174C, 0xC499ED01, 0x717EEBD7);
    Next(w, 33, s33, 0x00000600, s34);
    var s35 := State(0x21796AD4, 0x2C0EBC11, 0x811BEA82, 0xCEE1174C, 0xC499ED01);
    Next(w, 34, s34, 0xB131C0F0, s35);
    var s36 := State(0xDCBBB0CB, 0x21796AD4, 0x4B03AF04, 0x811BEA82, 0xCEE1174C);
    Next(w, 35, s35, 0x16263BC6, s36);
    var s37 := State(0x0F511FD8, 0xDCBBB0CB, 0x085E5AB5, 0x4B03AF04, 0x811BEA82);
    Next(w, 36, s36, 0x4EBED41E, s37);
    var s38 := State(0xDC63973F, 0x0F511FD8, 0xF72EEC32, 0x085E5AB5, 0x4B03AF04);
    Next(w, 37, s37, 0x626380A1, s38);
    var s39 := State(0x4C986405, 0xDC63973F, 0x03D447F6, 0xF72EEC32, 0x085E5AB5);
    Next(w, 38, s38, 0x16263806, s39);
    var s40 := State(0x32DE1CBA, 0x4C986405, 0xF718E5CF, 0x03D447F6, 0xF72EEC32);
    Next(w, 39, s39, 0x000018C0, s40);
  }

  lemma Rounds40(w: seq<Word>)
    requires |w| == 16 && Rounds(w, INIT, 40) == State(0x32DE1CBA, 0x4C986405, 0xF718E5CF, 0x03D447F6, 0xF72EEC32)
    requires Schedule(w, 40) == 0xD2E138C4 && Schedule(w, 41) == 0x00000F00 && Schedule(w, 42) == 0x3AFB5079
             && Schedule(w, 43) == 0x898E04E5 && Schedule(w, 44) == 0xE2BA3C2B && Schedule(w, 45) == 0x000060C0
             && Schedule(w, 46) == 0x053A37CD && Schedule(w, 47) == 0x74458547 && Schedule(w, 48) == 0xDA9415ED
             && Schedule(w, 49) == 0x26380A16 && Schedule(w, 50) == 0x626383A1 && Schedule(w, 51) == 0x4EBF54DE
             && Schedule(w, 52) == 0x3835B44B && Schedule(w, 53) == 0x0000F600 && Schedule(w, 54) == 0x1E84C7A3
             && Schedule(w, 55) == 0x98E04D98 && Schedule(w, 56) == 0x651D16A0 && Schedule(w, 57) == 0x62658CA1
             && Schedule(w, 58) == 0x458544D6 && Schedule(w, 59) == 0x44584CB7
    ensures Rounds(w, INIT, 60) == State(0x3F52DE5A, 0x09D785FD, 0x3498BFD4, 0xF211824F, 0xD79915AB)
  {
    hide Rounds, Schedule;
    var s40 := State(0x32DE1CBA, 0x4C986405, 0xF718E5CF, 0x03D447F6, 0xF72EEC32);
    var s41 := State(0xFC87DEDF, 0x32DE1CBA, 0x53261901, 0xF718E5CF, 0x03D447F6);
    Next(w, 40, s40, 0xD2E138C4, s41);
    var s42 := State(0x970A0D5C, 0xFC87DEDF, 0x8CB7872E, 0x53261901, 0xF718E5CF);
    Next(w, 41, s41, 0x00000F00, s42);
    var s43 := State(0x7F193DC5, 0x970A0D5C, 0xFF21F7B7, 0x8CB7872E, 0x53261901);
    Next(w, 42, s42, 0x3AFB5079, s43);
    var s44 := State(0xEE1B1AAF, 0x7F193DC5, 0x25C28357, 0xFF21F7B7, 0x8CB7872E);
    Next(w, 43, s43, 0x898E04E5, s44);
    var s45 := State(0x40F28E09, 0xEE1B1AAF, 0x5FC64F71, 0x25C28357, 0xFF21F7B7);
    Next(w, 44, s44, 0xE2BA3C2B, s45);
    var s46 := State(0x1C51E1F2, 0x40F28E09, 0xFB86C6AB, 0x5FC64F71, 0x25C28357);
    Next(w, 45, s45, 0x000060C0, s46);
    var s47 := State(0xA01B846C, 0x1C51E1F2, 0x503CA382, 0xFB86C6AB, 0x5FC64F71);
    Next(w, 46, s46, 0x053A37CD, s47);
    var s48 := State(0xBEAD02CA, 0xA01B846C, 0x8714787C, 0x503CA382, 0xFB86C6AB);
    Next(w, 47, s47, 0x74458547, s48);
    var s49 := State(0xBAF39337, 0xBEAD02CA, 0x2806E11B, 0x8714787C, 0x503CA382);
    Next(w, 48, s48, 0xDA9415ED, s49);
    var s50 := State(0x120731C5, 0xBAF39337, 0xAFAB40B2, 0x2806E11B, 0x8714787C);
    Next(w, 49, s49, 0x26380A16, s50);
    var s51 := State(0x641DB2CE, 0x120731C5, 0xEEBCE4CD, 0xAFAB40B2, 0x2806E11B);
    Next(w, 50, s50, 0x626383A1, s51);
    var s52 := State(0x3847AD66, 0x641DB2CE, 0x4481CC71, 0xEEBCE4CD, 0xAFAB40B2);
    Next(w, 51, s51, 0x4EBF54DE, s52);
    var s53 := State(0xE490436D, 0x3847AD66, 0x99076CB3, 0x4481CC71, 0xEEBCE4CD);
    Next(w, 52, s52, 0x3835B44B, s53);
    var s54 := State(0x27E9F1D8, 0xE490436D, 0x8E11EB59, 0x99076CB3, 0x4481CC71);
    Next(w, 53, s53, 0x0000F600, s54);
    var s55 := State(0x7B71F76D, 0x27E9F1D8, 0x792410DB, 0x8E11EB59, 0x99076CB3);
    Next(w, 54, s54, 0x1E84C7A3, s55);
    var s56 := State(0x5E6456AF, 0x7B71F76D, 0x09FA7C76, 0x792410DB, 0x8E11EB59);
    Next(w, 55, s55, 0x98E04D98, s56);
    var s57 := State(0xC846093F, 0x5E6456AF, 0x5EDC7DDB, 0x09FA7C76, 0x792410DB);
    Next(w, 56, s56, 0x651D16A0, s57);
    var s58 := State(0xD262FF50, 0xC846093F, 0xD79915AB, 0x5EDC7DDB, 0x09FA7C76);
    Next(w, 57, s57, 0x62658CA1, s58);
    var s59 := State(0x09D785FD, 0xD262FF50, 0xF211824F, 0xD79915AB, 0x5EDC7DDB);
    Next(w, 58, s58, 0x458544D6, s59);
    var s60 := State(0x3F52DE5A, 0x09D785FD, 0x3498BFD4, 0xF211824F, 0xD79915AB);
    Next(w, 59, s59, 0x44584CB7, s60);
  }

  lemma Rounds60(w: seq<Word>)
    requires |w| == 16 && Rounds(w, INIT, 60) == State(0x3F52DE5A, 0x09D785FD, 0x3498BFD4, 0xF211824F, 0xD79915AB)
    requires Schedule(w, 60) == 0x7BA06619 && Schedule(w, 61) == 0x6380AEA2 && Schedule(w, 62) == 0x0AE55269
             && Schedule(w, 63) == 0x627B49A1 && Schedule(w, 64) == 0x7CD45C9D && Schedule(w, 65) == 0x000F0000
             && Schedule(w, 66) == 0xFB50753A && Schedule(w, 67) == 0xEC6765E8 && Schedule(w, 68) == 0xBA3C2BE2
             && Schedule(w, 69) == 0x0060C000 && Schedule(w, 70) == 0x3A37CD05 && Schedule(w, 71) == 0x458546F4
             && Schedule(w, 72) == 0xB8599DD6 && Schedule(w, 73) == 0x380A1A26 && Schedule(w, 74) == 0x01E02203
             && Schedule(w, 75) == 0xE7CC3456 && Schedule(w, 76) == 0xE6E60B69 && Schedule(w, 77) == 0x00F60A00
             && Schedule(w, 78) == 0x5795EF4F && Schedule(w, 79) == 0x822E0879
    ensures Rounds(w, INIT, 80) == State(0x42541B35, 0x5738D5E1, 0x21834873, 0x681E6DF6, 0xD8FDF6AD)
  {
    hide Rounds, Schedule;
    var s60 := State(0x3F52DE5A, 0x09D785FD, 0x3498BFD4, 0xF211824F, 0xD79915AB);
    var s61 := State(0xD756C147, 0x3F52DE5A, 0x4275E17F, 0x3498BFD4, 0xF211824F);
    Next(w, 60, s60, 0x7BA06619, s61);
    var s62 := State(0x548C9CB2, 0xD756C147, 0x8FD4B796, 0x4275E17F, 0x3498BFD4);
    Next(w, 61, s61, 0x6380AEA2, s62);
    var s63 := State(0xB66C020B, 0x548C9CB2, 0xF5D5B051, 0x8FD4B796, 0x4275E17F);
    Next(w, 62, s62, 0x0AE55269, s63);
    var s64 := State(0x6B61C9E1, 0xB66C020B, 0x9523272C, 0xF5D5B051, 0x8FD4B796);
    Next(w, 63, s63, 0x627B49A1, s64);
    var s65 := State(0x19DFA7AC, 0x6B61C9E1, 0xED9B0082, 0x9523272C, 0xF5D5B051);
    Next(w, 64, s64, 0x7CD45C9D, s65);
    var s66 := State(0x101655F9, 0x19DFA7AC, 0x5AD87278, 0xED9B0082, 0x9523272C);
    Next(w, 65, s65, 0x000F0000, s66);
    var s67 := State(0x0C3DF2B4, 0x101655F9, 0x0677E9EB, 0x5AD87278, 0xED9B0082);
    Next(w, 66, s66, 0xFB50753A, s67);
    var s68 := State(0x78DD4D2B, 0x0C3DF2B4, 0x4405957E, 0x0677E9EB, 0x5AD87278);
    Next(w, 67, s67, 0xEC6765E8, s68);
    var s69 := State(0x497093C0, 0x78DD4D2B, 0x030F7CAD, 0x4405957E, 0x0677E9EB);
    Next(w, 68, s68, 0xBA3C2BE2, s69);
    var s70 := State(0x3F2588C2, 0x497093C0, 0xDE37534A, 0x030F7CAD, 0x4405957E);
    Next(w, 69, s69, 0x0060C000, s70);
    var s71 := State(0xC199F8C7, 0x3F2588C2, 0x125C24F0, 0xDE37534A, 0x030F7CAD);
    Next(w, 70, s70, 0x3A37CD05, s71);
    var s72 := State(0x39859DE7, 0xC199F8C7, 0x8FC96230, 0x125C24F0, 0xDE37534A);
    Next(w, 71, s71, 0x458546F4, s72);
    var s73 := State(0xEDB42DE4, 0x39859DE7, 0xF0667E31, 0x8FC96230, 0x125C24F0);
    Next(w, 72, s72, 0xB8599DD6, s73);
    var s74 := State(0x11793F6F, 0xEDB42DE4, 0xCE616779, 0xF0667E31, 0x8FC96230);
    Next(w, 73, s73, 0x380A1A26, s74);
    var s75 := State(0x5EE76897, 0x11793F6F, 0x3B6D0B79, 0xCE616779, 0xF0667E31);
    Next(w, 74, s74, 0x01E02203, s75);
    var s76 := State(0x63F7DAB7, 0x5EE76897, 0xC45E4FDB, 0x3B6D0B79, 0xCE616779);
    Next(w, 75, s75, 0xE7CC3456, s76);
    var s77 := State(0xA079B7D9, 0x63F7DAB7, 0xD7B9DA25, 0xC45E4FDB, 0x3B6D0B79);
    Next(w, 76, s76, 0xE6E60B69, s77);
    var s78 := State(0x860D21CC, 0xA079B7D9, 0xD8FDF6AD, 0xD7B9DA25, 0xC45E4FDB);
    Next(w, 77, s77, 0x00F60A00, s78);
    var s79 := State(0x5738D5E1, 0x860D21CC, 0x681E6DF6, 0xD8FDF6AD, 0xD7B9DA25);
    Next(w, 78, s78, 0x5795EF4F, s79);
    var s80 := State(0x42541B35, 0x5738D5E1, 0x21834873, 0x681E6DF6, 0xD8FDF6AD);
    Next(w, 79, s79, 0x822E0879, s80);
  }

  const ABC: seq<Octet> := [0x61, 0x62, 0x63]

  lemma OneBlock()
    ensures var p := Padded(ABC, LengthField(24)); |p| == 64 && Chain(p) == Compress(INIT, p)
  {
    var p := Padded(ABC, LengthField(24));
    assert |ABC| == 3 && |p| == 64;
    assert p[..0] == [] && p[0..] == p;
  }

  lemma OctetsOfAbc()
    ensures var p := Padded(ABC, LengthField(24));
            && |p| == 64 && p[0] == 0x61 && p[1] == 0x62 && p[2] == 0x63 && p[3] == 0x80 && p[63] == 24
            && forall i | 4 <= i < 63 :: p[i] == 0
  {
    var p, f := Padded(ABC, LengthField(24)), LengthField(24);
    LengthOf24();
    hide LengthField;
    assert p == ABC + [0x80] + Zeros(52) + f;
    forall i | 4 <= i < 63 ensures p[i] == 0 {
      if i >= 56 {
        assert p[i] == f[i - 56];
      }
    }
    assert p[63] == f[7];
  }

  lemma LengthOf24()
    ensures var f := LengthField(24); f[7] == 24 && forall i | 0 <= i < 7 :: f[i] == 0
  {
    forall i | 0 <= i < 8 ensures LengthField(24)[i] == if i == 7 then 24 else 0 {
      OctetsOf24(7 - i);
    }
  }

  lemma FourOctets(m: seq<Octet>)
    requires |m| == 4
    ensures m[0] == 0 && m[1] == 0 && m[2] == 0 ==> BigWord(m) == m[3] as Word
    ensures m == [0x61, 0x62, 0x63, 0x80] ==> BigWord(m) == 0x61626380
  {
  }

  lemma BlockOfAbc()
    ensures var p := Padded(ABC, LengthField(24)); |p| == 64 && var w := BlockWords(p);
            w[0] == 0x61626380 && w[15] == 24 && forall i | 1 <= i < 15 :: w[i] == 0
  {
    OctetsOfAbc();
    hide BigWord, Padded, LengthField;
    var p := Padded(ABC, LengthField(24));
    forall i | 0 <= i < 16 ensures BlockWords(p)[i] == if i == 0 then 0x61626380 else if i == 15 then 24 else 0 {
      FourOctets(p[4 * i..4 * i + 4]);
    }
  }

  /** A message digest that the standard gives. */
  lemma DigestOfAbc()
    ensures Digest(ABC) == [
      0xA9, 0x99, 0x3E, 0x36, 0x47, 0x06, 0x81, 0x6A, 0xBA, 0x3E,
      0x25, 0x71, 0x78, 0x50, 0xC2, 0x6C, 0x9C, 0xD0, 0xD8, 0x9D]
  {
    OneBlock();
    BlockOfAbc();
    var p := Padded(ABC, LengthField(24));
    var w := BlockWords(p);
    FirstWords(w);
    assert Rounds(w, INIT, 0) == INIT;
    hide Rounds, Schedule, Round, Padded, BlockWords, LengthField, Chain;
    Schedule16(w);
    Schedule32(w);
    Schedule48(w);
    Schedule64(w);
    Rounds0(w);
    Rounds20(w);
    Rounds40(w);
    Rounds60(w);
    Sums();
    assert 8 * |ABC| == 24;
  }

  lemma FirstWords(w: seq<Word>)
    requires |w| == 16
    ensures forall t | 0 <= t < 16 :: Schedule(w, t) == w[t]
  {
  }

  lemma Sums()
    ensures Plus(INIT, State(0x42541B35, 0x5738D5E1, 0x21834873, 0x681E6DF6, 0xD8FDF6AD)) == State(0xA9993E36, 0x4706816A, 0xBA3E2571, 0x7850C26C, 0x9CD0D89D)
    ensures StateOctets(State(0xA9993E36, 0x4706816A, 0xBA3E2571, 0x7850C26C, 0x9CD0D89D)) == [
      0xA9, 0x99, 0x3E, 0x36, 0x47, 0x06, 0x81, 0x6A, 0xBA, 0x3E,
      0x25, 0x71, 0x78, 0x50, 0xC2, 0x6C, 0x9C, 0xD0, 0xD8, 0x9D]
  {
  }
}
