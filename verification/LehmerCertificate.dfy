/** A certificate: the powers of 16807 modulo 2^31 - 1 that show it to be a generator. The exponents are
    products of the prime factors 2, 3, 3, 7, 11, 31, 151 and 331 of N = 2^31 - 2. Every line squares a
    power, and multiplies it once more where the next binary digit is a one; the quotients are given. */
module LehmerCertificate {
  import Arithmetic
  import opened Lehmer

  predicate Is(k: nat, x: nat) { Power(k) == x }

  lemma Sum(i: nat, x: nat, j: nat, y: nat, quotient: nat, z: nat)
    requires Is(i, x) && Is(j, y)
    requires x * y == quotient * 2147483647 + z && z < 2147483647
    ensures Is(i + j, z)
  {
    PowerSum(i, j);
    Arithmetic.ModUnique(quotient, z, M);
  }

  lemma First()
    ensures Is(1, 16807)
  {
    assert Power(1) == Times(Power(0), A);
  }

  lemma Double(i: nat, x: nat, quotient: nat, z: nat)
    requires Is(i, x) && x * x == quotient * 2147483647 + z && z < 2147483647
    ensures Is(2 * i, z)
  {
    Sum(i, x, i, x, quotient, z);
  }

  lemma DoublePlus(i: nat, x: nat, quotient: nat, z: nat, j: nat, y: nat, quotient': nat, z': nat)
    requires Is(i, x) && x * x == quotient * 2147483647 + z && z < 2147483647
    requires Is(j, y) && z * y == quotient' * 2147483647 + z' && z' < 2147483647
    ensures Is(2 * i + j, z')
  {
    Double(i, x, quotient, z);
    Sum(2 * i, z, j, y, quotient', z');
  }

  /** 31 * 151 * 331 */
  lemma Left()
    ensures Is(1549411, 942143378)
  {
    First();
    hide *;
    assert Is(3, 1622650073) by { DoublePlus(1, 16807, 0, 282475249, 1, 16807, 2210, 1622650073); }
    assert Is(7, 101027544) by { DoublePlus(3, 1622650073, 1226083031, 470211272, 1, 16807, 3680, 101027544); }
    assert Is(15, 114807987) by { DoublePlus(7, 101027544, 4752802, 74243042, 1, 16807, 581, 114807987); }
    assert Is(31, 1954899097) by { DoublePlus(15, 114807987, 6137822, 1505795335, 1, 16807, 11784, 1954899097); }
    assert Is(62, 1083454666) by { Double(31, 1954899097, 1779585369, 1083454666); }
    assert Is(124, 889688008) by { Double(62, 1083454666, 546627684, 889688008); }
    assert Is(279, 907225550) by { DoublePlus(124, 889688008, 368591748, 329863108, 31, 1954899097, 300281258, 907225550); }
    assert Is(558, 977260520) by { Double(279, 907225550, 383266340, 977260520); }
    assert Is(1147, 38193236) by { DoublePlus(558, 977260520, 444724282, 931853946, 31, 1954899097, 848286058, 38193236); }
    assert Is(2325, 1999469630) by { DoublePlus(1147, 38193236, 679270, 2059254006, 31, 1954899097, 1874581816, 1999469630); }
    assert Is(4681, 184149733) by { DoublePlus(2325, 1999469630, 1861657389, 2098119217, 31, 1954899097, 1909961628, 184149733); }
    assert Is(9362, 1588280530) by { Double(4681, 184149733, 15791097, 1588280530); }
    assert Is(23405, 1852503222) by { DoublePlus(9362, 1588280530, 1174693481, 1292075693, 4681, 184149733, 110797301, 1852503222); }
    assert Is(46810, 1474535260) by { Double(23405, 1852503222, 1598041592, 1474535260); }
    assert Is(93620, 1152674425) by { Double(46810, 1474535260, 1012466025, 1152674425); }
    assert Is(191921, 1696442049) by { DoublePlus(93620, 1152674425, 618704748, 1397824669, 4681, 184149733, 119865424, 1696442049); }
    assert Is(383842, 1312403336) by { Double(191921, 1696442049, 1340133895, 1312403336); }
    assert Is(772365, 940785502) by { DoublePlus(383842, 1312403336, 802056173, 851025965, 4681, 184149733, 72976669, 940785502); }
    assert Is(1549411, 942143378) by { DoublePlus(772365, 940785502, 412146263, 808730843, 4681, 184149733, 69349803, 942143378); }
  }

  /** 2 * 3 * 3 * 7 * 11 */
  lemma Right()
    ensures Is(1386, 1179617774)
  {
    First();
    hide *;
    assert Is(3, 1622650073) by { DoublePlus(1, 16807, 0, 282475249, 1, 16807, 2210, 1622650073); }
    assert Is(7, 101027544) by { DoublePlus(3, 1622650073, 1226083031, 470211272, 1, 16807, 3680, 101027544); }
    assert Is(14, 74243042) by { Double(7, 101027544, 4752802, 74243042); }
    assert Is(35, 1580723810) by { DoublePlus(14, 74243042, 2566738, 1404280278, 7, 101027544, 66063826, 1580723810); }
    assert Is(77, 2020739063) by { DoublePlus(35, 1580723810, 1163542161, 158374933, 7, 101027544, 7450687, 2020739063); }
    assert Is(154, 428975319) by { Double(77, 2020739063, 1901474950, 428975319); }
    assert Is(462, 1928256141) by { DoublePlus(154, 428975319, 85690908, 684570285, 154, 428975319, 136747842, 1928256141); }
    assert Is(1386, 1179617774) by { DoublePlus(462, 1928256141, 1731408642, 334734507, 462, 1928256141, 300562879, 1179617774); }
  }

  /** 31 * 151 * 331 * 7 * 11 */
  lemma LeftTimesSeventySeven()
    requires Is(1549411, 942143378)
    ensures Is(119304647, 1074490442)
  {
    hide *;
    assert Is(4648233, 1689239032) by { DoublePlus(1549411, 942143378, 413336858, 1451889758, 1549411, 942143378, 636972636, 1689239032); }
    assert Is(10845877, 1461621549) by { DoublePlus(4648233, 1689239032, 1328777758, 1429973598, 1549411, 942143378, 627357585, 1461621549); }
    assert Is(21691754, 611601736) by { Double(10845877, 1461621549, 994809695, 611601736); }
    assert Is(54229385, 784427592) by { DoublePlus(21691754, 611601736, 174183716, 1794521444, 10845877, 1461621549, 1221388212, 784427592); }
    assert Is(119304647, 1074490442) by { DoublePlus(54229385, 784427592, 286533798, 1573117158, 10845877, 1461621549, 1070695900, 1074490442); }
  }

  /** 31 * 151 * 331 * 2 * 3 * 3 */
  lemma LeftTimesEighteen()
    requires Is(1549411, 942143378)
    ensures Is(27889398, 1166146077)
  {
    hide *;
    assert Is(3098822, 1451889758) by { Double(1549411, 942143378, 413336858, 1451889758); }
    assert Is(9296466, 1429973598) by { DoublePlus(3098822, 1451889758, 981606482, 1501098710, 3098822, 1451889758, 1014876106, 1429973598); }
    assert Is(27889398, 1166146077) by { DoublePlus(9296466, 1429973598, 952195605, 494294169, 9296466, 1429973598, 329142255, 1166146077); }
  }

  /** N / 2, N and N / 3 */
  lemma WithoutTwoOrThree()
    requires Is(119304647, 1074490442)
    ensures Is(1073741823, 2147483646)
    ensures Is(2147483646, 1)
    ensures Is(715827882, 634005911)
  {
    hide *;
    assert Is(238609294, 473297587) by { Double(119304647, 1074490442, 537619791, 473297587); }
    assert Is(477218588, 309107220) by { Double(238609294, 473297587, 104313067, 309107220); }
    assert Is(1073741823, 2147483646) by { DoublePlus(477218588, 309107220, 44492666, 809695498, 119304647, 1074490442, 405130010, 2147483646); }
    assert Is(2147483646, 1) by { Double(1073741823, 2147483646, 2147483645, 1); }
    assert Is(357913941, 634005912) by { DoublePlus(119304647, 1074490442, 537619791, 473297587, 119304647, 1074490442, 236813786, 634005912); }
    assert Is(715827882, 634005911) by { Double(357913941, 634005912, 187178839, 634005911); }
  }

  /** N / 7 and N / 11 */
  lemma WithoutSevenOrEleven()
    requires Is(27889398, 1166146077)
    ensures Is(306783378, 1600955193)
    ensures Is(195225786, 298192073)
  {
    hide *;
    assert Is(55778796, 1297435884) by { Double(27889398, 1166146077, 633251235, 1297435884); }
    assert Is(139446990, 400258458) by { DoublePlus(55778796, 1297435884, 783866212, 1385026292, 27889398, 1166146077, 752109558, 400258458); }
    assert Is(306783378, 1600955193) by { DoublePlus(139446990, 400258458, 74602120, 469006124, 27889398, 1166146077, 254683965, 1600955193); }
    assert Is(83668194, 414363975) by { DoublePlus(27889398, 1166146077, 633251235, 1297435884, 27889398, 1166146077, 704545419, 414363975); }
    assert Is(195225786, 298192073) by { DoublePlus(83668194, 414363975, 79952880, 1447247265, 27889398, 1166146077, 785897356, 298192073); }
  }

  /** 2 * 3 * 3 * 7 * 11 * 331 */
  lemma RightTimesLast()
    requires Is(1386, 1179617774)
    ensures Is(458766, 503913307)
  {
    hide *;
    assert Is(2772, 970181005) by { Double(1386, 1179617774, 647966793, 970181005); }
    assert Is(6930, 1421726854) by { DoublePlus(2772, 970181005, 438304237, 1094497686, 1386, 1179617774, 601210130, 1421726854); }
    assert Is(13860, 644118171) by { Double(6930, 1421726854, 941244535, 644118171); }
    assert Is(27720, 1871656734) by { Double(13860, 644118171, 193197381, 1871656734); }
    assert Is(56826, 52733491) by { DoublePlus(27720, 1871656734, 1631257558, 77392730, 1386, 1179617774, 42512007, 52733491); }
    assert Is(113652, 1548873841) by { Double(56826, 52733491, 1294920, 1548873841); }
    assert Is(228690, 967973175) by { DoublePlus(113652, 1548873841, 1117126167, 65802232, 1386, 1179617774, 36145319, 967973175); }
    assert Is(458766, 503913307) by { DoublePlus(228690, 967973175, 436311619, 720986132, 1386, 1179617774, 396039363, 503913307); }
  }

  /** N / 31 and N / 151 */
  lemma WithoutThirtyOneOrNext()
    requires Is(458766, 503913307)
    ensures Is(69273666, 16384)
    ensures Is(14221746, 1013763951)
  {
    hide *;
    assert Is(917532, 1247713233) by { Double(458766, 503913307, 118244728, 1247713233); }
    assert Is(1835064, 1455021586) by { Double(917532, 1247713233, 724936049, 1455021586); }
    assert Is(4128894, 2081116827) by { DoublePlus(1835064, 1455021586, 985845838, 157944210, 458766, 503913307, 37062069, 2081116827); }
    assert Is(8257788, 1412405990) by { Double(4128894, 2081116827, 2016801037, 1412405990); }
    assert Is(16974342, 461868074) by { DoublePlus(8257788, 1412405990, 928943362, 1703678886, 458766, 503913307, 399773224, 461868074); }
    assert Is(34407450, 977241766) by { DoublePlus(16974342, 461868074, 99335852, 49657232, 458766, 503913307, 11652214, 977241766); }
    assert Is(69273666, 16384) by { DoublePlus(34407450, 977241766, 444707213, 1594352945, 458766, 503913307, 374119573, 16384); }
    assert Is(1376298, 1332705387) by { DoublePlus(458766, 503913307, 118244728, 1247713233, 458766, 503913307, 292779552, 1332705387); }
    assert Is(3211362, 1835564890) by { DoublePlus(1376298, 1332705387, 827062711, 1622832752, 458766, 503913307, 380802442, 1835564890); }
    assert Is(6881490, 2137179903) by { DoublePlus(3211362, 1835564890, 1568951861, 972995033, 458766, 503913307, 228316124, 2137179903); }
    assert Is(14221746, 1013763951) by { DoublePlus(6881490, 2137179903, 2126925596, 1991360797, 458766, 503913307, 467278624, 1013763951); }
  }

  /** N / 331 */
  lemma WithoutLast()
    requires Is(1386, 1179617774)
    ensures Is(6487866, 759513457)
  {
    hide *;
    assert Is(4158, 2047383381) by { DoublePlus(1386, 1179617774, 647966793, 970181005, 1386, 1179617774, 532922687, 2047383381); }
    assert Is(9702, 1596326605) by { DoublePlus(4158, 2047383381, 1951949070, 1193132871, 1386, 1179617774, 655390667, 1596326605); }
    assert Is(20790, 1353207565) by { DoublePlus(9702, 1596326605, 1186625394, 1100894107, 1386, 1179617774, 604723699, 1353207565); }
    assert Is(42966, 1730649443) by { DoublePlus(20790, 1353207565, 852705312, 743196361, 1386, 1179617774, 408239493, 1730649443); }
    assert Is(85932, 1376674263) by { Double(42966, 1730649443, 1394724238, 1376674263); }
    assert Is(171864, 1233326474) by { Double(85932, 1376674263, 882536185, 1233326474); }
    assert Is(386694, 2046898715) by { DoublePlus(171864, 1233326474, 708314679, 1386718363, 42966, 1730649443, 1117551402, 2046898715); }
    assert Is(773388, 508483168) by { Double(386694, 2046898715, 1951025031, 508483168); }
    assert Is(1589742, 1800693194) by { DoublePlus(773388, 508483168, 120399115, 1563543819, 42966, 1730649443, 1260054409, 1800693194); }
    assert Is(3222450, 1722962606) by { DoublePlus(1589742, 1800693194, 1509904852, 721966392, 42966, 1730649443, 581830150, 1722962606); }
    assert Is(6487866, 759513457) by { DoublePlus(3222450, 1722962606, 1382362164, 252779128, 42966, 1730649443, 203713801, 759513457); }
  }

  /** The N-th power is one, and none of the N / q-th is, for the prime factors q of N. */
  lemma Generator()
    ensures Power(N) == 1
    ensures forall q :: q in Factors ==> Power(N / q) != 1
  {

    Left();
    Right();
    LeftTimesSeventySeven();
    LeftTimesEighteen();
    WithoutTwoOrThree();
    WithoutSevenOrEleven();
    RightTimesLast();
    WithoutThirtyOneOrNext();
    WithoutLast();
  }
}
