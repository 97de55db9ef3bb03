/** The wheel of trial divisors: 2, 3, 5, 7, 11 and then the numbers that none of them divides. */
module Wheels {
  // packed_wheel: the steps in each 64-bit word, from 5 on.
  const ROW0: seq<nat> := [2, 4, 2, 4, 2, 4, 6, 2, 6, 4, 2, 4, 6, 6, 2, 6, 4, 2, 6, 4, 6]
  const ROW1: seq<nat> := [8, 4, 2, 4, 2, 4, 14, 4, 6, 2, 10, 2, 6, 6, 4, 2, 4, 6, 2, 10, 2]
  const ROW2: seq<nat> := [4, 2, 12, 10, 2, 4, 2, 4, 6, 2, 6, 4, 6, 6, 6, 2, 6, 4, 2, 6, 4]
  const ROW3: seq<nat> := [6, 8, 4, 2, 4, 6, 8, 6, 10, 2, 4, 6, 2, 6, 6, 4, 2, 4, 6, 2, 6]
  const ROW4: seq<nat> := [4, 2, 6, 10, 2, 10, 2, 4, 2, 4, 6, 8, 4, 2, 4, 12, 2, 6, 4, 2, 6]
  const ROW5: seq<nat> := [4, 6, 12, 2, 4, 2, 4, 8, 6, 4, 6, 2, 4, 6, 2, 6, 10, 2, 4, 6, 2]
  const ROW6: seq<nat> := [6, 4, 2, 4, 2, 10, 2, 10, 2, 4, 6, 6, 2, 6, 6, 4, 6, 6, 2, 6, 4]
  const ROW7: seq<nat> := [2, 6, 4, 6, 8, 4, 2, 6, 4, 8, 6, 4, 6, 2, 4, 6, 8, 6, 4, 2, 10]
  const ROW8: seq<nat> := [2, 6, 4, 2, 4, 2, 10, 2, 10, 2, 4, 2, 4, 8, 6, 4, 2, 4, 6, 6, 2]
  const ROW9: seq<nat> := [6, 4, 8, 4, 6, 8, 4, 2, 4, 2, 4, 8, 6, 4, 6, 6, 6, 2, 6, 6, 4]
  const ROW10: seq<nat> := [2, 4, 6, 2, 6, 4, 2, 4, 2, 10, 2, 10, 2, 6, 4, 6, 2, 6, 4, 2, 4]
  const ROW11: seq<nat> := [6, 6, 8, 4, 2, 6, 10, 8, 4, 2, 4, 2, 4, 8, 10, 6, 2, 4, 8, 6, 6]
  const ROW12: seq<nat> := [4, 2, 4, 6, 2, 6, 4, 6, 2, 10, 2, 10, 2, 4, 2, 4, 6, 2, 6, 4, 2]
  const ROW13: seq<nat> := [4, 6, 6, 2, 6, 6, 6, 4, 6, 8, 4, 2, 4, 2, 4, 8, 6, 4, 8, 4, 6]
  const ROW14: seq<nat> := [2, 6, 6, 4, 2, 4, 6, 8, 4, 2, 4, 2, 10, 2, 10, 2, 4, 2, 4, 6, 2]
  const ROW15: seq<nat> := [10, 2, 4, 6, 8, 6, 4, 2, 6, 4, 6, 8, 4, 6, 2, 4, 8, 6, 4, 6, 2]
  const ROW16: seq<nat> := [4, 6, 2, 6, 6, 4, 6, 6, 2, 6, 6, 4, 2, 10, 2, 10, 2, 4, 2, 4, 6]
  const ROW17: seq<nat> := [2, 6, 4, 2, 10, 6, 2, 6, 4, 2, 6, 4, 6, 8, 4, 2, 4, 2, 12, 6, 4]
  const ROW18: seq<nat> := [6, 2, 4, 6, 2, 12, 4, 2, 4, 8, 6, 4, 2, 4, 2, 10, 2, 10, 6, 2, 4]
  const ROW19: seq<nat> := [6, 2, 6, 4, 2, 4, 6, 6, 2, 6, 4, 2, 10, 6, 8, 6, 4, 2, 4, 8, 6]
  const ROW20: seq<nat> := [4, 6, 2, 4, 6, 2, 6, 6, 6, 4, 6, 2, 6, 4, 2, 4, 2, 10, 12, 2, 4]
  const ROW21: seq<nat> := [2, 10, 2, 6, 4, 2, 4, 6, 6, 2, 10, 2, 6, 4, 14, 4, 2, 4, 2, 4, 8]
  const ROW22: seq<nat> := [6, 4, 6, 2, 4, 6, 2, 6, 6, 4, 2, 4, 6, 2, 6, 4, 2, 4, 12, 2, 12]

  const ROWS: seq<seq<nat>> := [
    ROW0, ROW1, ROW2, ROW3, ROW4, ROW5, ROW6, ROW7, ROW8, ROW9, ROW10, ROW11,
    ROW12, ROW13, ROW14, ROW15, ROW16, ROW17, ROW18, ROW19, ROW20, ROW21, ROW22
  ]

  /** Where each row starts, and the last one ends. */
  const STARTS: seq<nat> := [
    5, 89, 193, 293, 397, 499, 601, 701, 809, 901, 1007, 1097,
    1213, 1303, 1409, 1501, 1609, 1709, 1811, 1913, 2017, 2117, 2221, 2323
  ]

  const ROUND: nat := 2310        // 2 * 3 * 5 * 7 * 11
  const WHEEL_START: nat := 5
  const WHEEL_SIZE: nat := 485    // 5 + 24 * 20

  // ---------------------------------------------------------------- steps skip nothing that could be prime

  /** 2, 3, 5, 7 or 11 is a proper divisor of `x`. */
  predicate Skippable(x: nat) {
    || (x % 2 == 0 && x != 2) || (x % 3 == 0 && x != 3) || (x % 5 == 0 && x != 5) || (x % 7 == 0 && x != 7)
      || (x % 11 == 0 && x != 11)
  }

  ghost predicate GapOk(pos: nat, step: nat) { forall x :: pos < x < pos + step ==> Skippable(x) }

  /** The same for an odd position and a step that fits a 3-bit field. */
  predicate EvenGapOk(pos: nat, step: nat) {
    && (step == 2 || step == 4 || step == 6 || step == 8 || step == 10 || step == 12 || step == 14)
    && (step > 2 ==> Skippable(pos + 2)) && (step > 4 ==> Skippable(pos + 4)) && (step > 6 ==> Skippable(pos + 6))
    && (step > 8 ==> Skippable(pos + 8)) && (step > 10 ==> Skippable(pos + 10)) && (step > 12 ==> Skippable(pos + 12))
  }

  lemma EvenGap(pos: nat, step: nat)
    requires pos % 2 == 1 && EvenGapOk(pos, step) && pos > 2
    ensures GapOk(pos, step) && step % 2 == 0 && 2 <= step <= 14
  {
    forall x | pos < x < pos + step ensures Skippable(x) {
      if x % 2 == 1 { OddOffset(pos, x); }
    }
  }

  lemma OddOffset(pos: nat, x: nat)
    requires pos % 2 == 1 && x % 2 == 1 && pos < x < pos + 14
    ensures x == pos + 2 || x == pos + 4 || x == pos + 6 || x == pos + 8 || x == pos + 10 || x == pos + 12
  {
  }

  /** From `i` on, the row only skips skippable numbers, and it leads to `end`. */
  predicate RowFrom(row: seq<nat>, i: nat, pos: nat, end: nat)
    decreases |row| - i
  {
    if i < |row| then EvenGapOk(pos, row[i]) && RowFrom(row, i + 1, pos + row[i], end) else pos == end
  }

  lemma Gaps0()
    ensures EvenGapOk(5, 2) && EvenGapOk(7, 4) && EvenGapOk(11, 2) && EvenGapOk(13, 4)
    ensures EvenGapOk(17, 2) && EvenGapOk(19, 4) && EvenGapOk(23, 6)
    ensures EvenGapOk(29, 2) && EvenGapOk(31, 6) && EvenGapOk(37, 4) && EvenGapOk(41, 2)
    ensures EvenGapOk(43, 4) && EvenGapOk(47, 6) && EvenGapOk(53, 6)
    ensures EvenGapOk(59, 2) && EvenGapOk(61, 6) && EvenGapOk(67, 4) && EvenGapOk(71, 2)
    ensures EvenGapOk(73, 6) && EvenGapOk(79, 4) && EvenGapOk(83, 6)
  {
  }

  lemma Row0()
    ensures RowFrom(ROW0, 0, 5, 89)
  {
    hide EvenGapOk;
    Gaps0();
    assert RowFrom(ROW0, 21, 89, 89) && RowFrom(ROW0, 16, 67, 89);
    assert RowFrom(ROW0, 11, 43, 89) && RowFrom(ROW0, 6, 23, 89);
  }

  lemma Gaps1()
    ensures EvenGapOk(89, 8) && EvenGapOk(97, 4) && EvenGapOk(101, 2) && EvenGapOk(103, 4)
    ensures EvenGapOk(107, 2) && EvenGapOk(109, 4) && EvenGapOk(113, 14)
    ensures EvenGapOk(127, 4) && EvenGapOk(131, 6) && EvenGapOk(137, 2) && EvenGapOk(139, 10)
    ensures EvenGapOk(149, 2) && EvenGapOk(151, 6) && EvenGapOk(157, 6)
    ensures EvenGapOk(163, 4) && EvenGapOk(167, 2) && EvenGapOk(169, 4) && EvenGapOk(173, 6)
    ensures EvenGapOk(179, 2) && EvenGapOk(181, 10) && EvenGapOk(191, 2)
  {
  }

  lemma Row1()
    ensures RowFrom(ROW1, 0, 89, 193)
  {
    hide EvenGapOk;
    Gaps1();
    assert RowFrom(ROW1, 21, 193, 193) && RowFrom(ROW1, 16, 169, 193);
    assert RowFrom(ROW1, 11, 149, 193) && RowFrom(ROW1, 6, 113, 193);
  }

  lemma Gaps2()
    ensures EvenGapOk(193, 4) && EvenGapOk(197, 2) && EvenGapOk(199, 12) && EvenGapOk(211, 10)
    ensures EvenGapOk(221, 2) && EvenGapOk(223, 4) && EvenGapOk(227, 2)
    ensures EvenGapOk(229, 4) && EvenGapOk(233, 6) && EvenGapOk(239, 2) && EvenGapOk(241, 6)
    ensures EvenGapOk(247, 4) && EvenGapOk(251, 6) && EvenGapOk(257, 6)
    ensures EvenGapOk(263, 6) && EvenGapOk(269, 2) && EvenGapOk(271, 6) && EvenGapOk(277, 4)
    ensures EvenGapOk(281, 2) && EvenGapOk(283, 6) && EvenGapOk(289, 4)
  {
  }

  lemma Row2()
    ensures RowFrom(ROW2, 0, 193, 293)
  {
    hide EvenGapOk;
    Gaps2();
    assert RowFrom(ROW2, 21, 293, 293) && RowFrom(ROW2, 16, 271, 293);
    assert RowFrom(ROW2, 11, 247, 293) && RowFrom(ROW2, 6, 227, 293);
  }

  lemma Gaps3()
    ensures EvenGapOk(293, 6) && EvenGapOk(299, 8) && EvenGapOk(307, 4) && EvenGapOk(311, 2)
    ensures EvenGapOk(313, 4) && EvenGapOk(317, 6) && EvenGapOk(323, 8)
    ensures EvenGapOk(331, 6) && EvenGapOk(337, 10) && EvenGapOk(347, 2) && EvenGapOk(349, 4)
    ensures EvenGapOk(353, 6) && EvenGapOk(359, 2) && EvenGapOk(361, 6)
    ensures EvenGapOk(367, 6) && EvenGapOk(373, 4) && EvenGapOk(377, 2) && EvenGapOk(379, 4)
    ensures EvenGapOk(383, 6) && EvenGapOk(389, 2) && EvenGapOk(391, 6)
  {
  }

  lemma Row3()
    ensures RowFrom(ROW3, 0, 293, 397)
  {
    hide EvenGapOk;
    Gaps3();
    assert RowFrom(ROW3, 21, 397, 397) && RowFrom(ROW3, 16, 377, 397);
    assert RowFrom(ROW3, 11, 353, 397) && RowFrom(ROW3, 6, 323, 397);
  }

  lemma Gaps4()
    ensures EvenGapOk(397, 4) && EvenGapOk(401, 2) && EvenGapOk(403, 6) && EvenGapOk(409, 10)
    ensures EvenGapOk(419, 2) && EvenGapOk(421, 10) && EvenGapOk(431, 2)
    ensures EvenGapOk(433, 4) && EvenGapOk(437, 2) && EvenGapOk(439, 4) && EvenGapOk(443, 6)
    ensures EvenGapOk(449, 8) && EvenGapOk(457, 4) && EvenGapOk(461, 2)
    ensures EvenGapOk(463, 4) && EvenGapOk(467, 12) && EvenGapOk(479, 2) && EvenGapOk(481, 6)
    ensures EvenGapOk(487, 4) && EvenGapOk(491, 2) && EvenGapOk(493, 6)
  {
  }

  lemma Row4()
    ensures RowFrom(ROW4, 0, 397, 499)
  {
    hide EvenGapOk;
    Gaps4();
    assert RowFrom(ROW4, 21, 499, 499) && RowFrom(ROW4, 16, 479, 499);
    assert RowFrom(ROW4, 11, 449, 499) && RowFrom(ROW4, 6, 431, 499);
  }

  lemma Gaps5()
    ensures EvenGapOk(499, 4) && EvenGapOk(503, 6) && EvenGapOk(509, 12) && EvenGapOk(521, 2)
    ensures EvenGapOk(523, 4) && EvenGapOk(527, 2) && EvenGapOk(529, 4)
    ensures EvenGapOk(533, 8) && EvenGapOk(541, 6) && EvenGapOk(547, 4) && EvenGapOk(551, 6)
    ensures EvenGapOk(557, 2) && EvenGapOk(559, 4) && EvenGapOk(563, 6)
    ensures EvenGapOk(569, 2) && EvenGapOk(571, 6) && EvenGapOk(577, 10) && EvenGapOk(587, 2)
    ensures EvenGapOk(589, 4) && EvenGapOk(593, 6) && EvenGapOk(599, 2)
  {
  }

  lemma Row5()
    ensures RowFrom(ROW5, 0, 499, 601)
  {
    hide EvenGapOk;
    Gaps5();
    assert RowFrom(ROW5, 21, 601, 601) && RowFrom(ROW5, 16, 577, 601);
    assert RowFrom(ROW5, 11, 557, 601) && RowFrom(ROW5, 6, 529, 601);
  }

  lemma Gaps6()
    ensures EvenGapOk(601, 6) && EvenGapOk(607, 4) && EvenGapOk(611, 2) && EvenGapOk(613, 4)
    ensures EvenGapOk(617, 2) && EvenGapOk(619, 10) && EvenGapOk(629, 2)
    ensures EvenGapOk(631, 10) && EvenGapOk(641, 2) && EvenGapOk(643, 4) && EvenGapOk(647, 6)
    ensures EvenGapOk(653, 6) && EvenGapOk(659, 2) && EvenGapOk(661, 6)
    ensures EvenGapOk(667, 6) && EvenGapOk(673, 4) && EvenGapOk(677, 6) && EvenGapOk(683, 6)
    ensures EvenGapOk(689, 2) && EvenGapOk(691, 6) && EvenGapOk(697, 4)
  {
  }

  lemma Row6()
    ensures RowFrom(ROW6, 0, 601, 701)
  {
    hide EvenGapOk;
    Gaps6();
    assert RowFrom(ROW6, 21, 701, 701) && RowFrom(ROW6, 16, 677, 701);
    assert RowFrom(ROW6, 11, 653, 701) && RowFrom(ROW6, 6, 629, 701);
  }

  lemma Gaps7()
    ensures EvenGapOk(701, 2) && EvenGapOk(703, 6) && EvenGapOk(709, 4) && EvenGapOk(713, 6)
    ensures EvenGapOk(719, 8) && EvenGapOk(727, 4) && EvenGapOk(731, 2)
    ensures EvenGapOk(733, 6) && EvenGapOk(739, 4) && EvenGapOk(743, 8) && EvenGapOk(751, 6)
    ensures EvenGapOk(757, 4) && EvenGapOk(761, 6) && EvenGapOk(767, 2)
    ensures EvenGapOk(769, 4) && EvenGapOk(773, 6) && EvenGapOk(779, 8) && EvenGapOk(787, 6)
    ensures EvenGapOk(793, 4) && EvenGapOk(797, 2) && EvenGapOk(799, 10)
  {
  }

  lemma Row7()
    ensures RowFrom(ROW7, 0, 701, 809)
  {
    hide EvenGapOk;
    Gaps7();
    assert RowFrom(ROW7, 21, 809, 809) && RowFrom(ROW7, 16, 779, 809);
    assert RowFrom(ROW7, 11, 757, 809) && RowFrom(ROW7, 6, 731, 809);
  }

  lemma Gaps8()
    ensures EvenGapOk(809, 2) && EvenGapOk(811, 6) && EvenGapOk(817, 4) && EvenGapOk(821, 2)
    ensures EvenGapOk(823, 4) && EvenGapOk(827, 2) && EvenGapOk(829, 10)
    ensures EvenGapOk(839, 2) && EvenGapOk(841, 10) && EvenGapOk(851, 2) && EvenGapOk(853, 4)
    ensures EvenGapOk(857, 2) && EvenGapOk(859, 4) && EvenGapOk(863, 8)
    ensures EvenGapOk(871, 6) && EvenGapOk(877, 4) && EvenGapOk(881, 2) && EvenGapOk(883, 4)
    ensures EvenGapOk(887, 6) && EvenGapOk(893, 6) && EvenGapOk(899, 2)
  {
  }

  lemma Row8()
    ensures RowFrom(ROW8, 0, 809, 901)
  {
    hide EvenGapOk;
    Gaps8();
    assert RowFrom(ROW8, 21, 901, 901) && RowFrom(ROW8, 16, 881, 901);
    assert RowFrom(ROW8, 11, 857, 901) && RowFrom(ROW8, 6, 829, 901);
  }

  lemma Gaps9()
    ensures EvenGapOk(901, 6) && EvenGapOk(907, 4) && EvenGapOk(911, 8) && EvenGapOk(919, 4)
    ensures EvenGapOk(923, 6) && EvenGapOk(929, 8) && EvenGapOk(937, 4)
    ensures EvenGapOk(941, 2) && EvenGapOk(943, 4) && EvenGapOk(947, 2) && EvenGapOk(949, 4)
    ensures EvenGapOk(953, 8) && EvenGapOk(961, 6) && EvenGapOk(967, 4)
    ensures EvenGapOk(971, 6) && EvenGapOk(977, 6) && EvenGapOk(983, 6) && EvenGapOk(989, 2)
    ensures EvenGapOk(991, 6) && EvenGapOk(997, 6) && EvenGapOk(1003, 4)
  {
  }

  lemma Row9()
    ensures RowFrom(ROW9, 0, 901, 1007)
  {
    hide EvenGapOk;
    Gaps9();
    assert RowFrom(ROW9, 21, 1007, 1007) && RowFrom(ROW9, 16, 983, 1007);
    assert RowFrom(ROW9, 11, 953, 1007) && RowFrom(ROW9, 6, 937, 1007);
  }

  lemma Gaps10()
    ensures EvenGapOk(1007, 2) && EvenGapOk(1009, 4) && EvenGapOk(1013, 6) && EvenGapOk(1019, 2)
    ensures EvenGapOk(1021, 6) && EvenGapOk(1027, 4) && EvenGapOk(1031, 2)
    ensures EvenGapOk(1033, 4) && EvenGapOk(1037, 2) && EvenGapOk(1039, 10) && EvenGapOk(1049, 2)
    ensures EvenGapOk(1051, 10) && EvenGapOk(1061, 2) && EvenGapOk(1063, 6)
    ensures EvenGapOk(1069, 4) && EvenGapOk(1073, 6) && EvenGapOk(1079, 2) && EvenGapOk(1081, 6)
    ensures EvenGapOk(1087, 4) && EvenGapOk(1091, 2) && EvenGapOk(1093, 4)
  {
  }

  lemma Row10()
    ensures RowFrom(ROW10, 0, 1007, 1097)
  {
    hide EvenGapOk;
    Gaps10();
    assert RowFrom(ROW10, 21, 1097, 1097) && RowFrom(ROW10, 16, 1079, 1097);
    assert RowFrom(ROW10, 11, 1051, 1097) && RowFrom(ROW10, 6, 1031, 1097);
  }

  lemma Gaps11()
    ensures EvenGapOk(1097, 6) && EvenGapOk(1103, 6) && EvenGapOk(1109, 8) && EvenGapOk(1117, 4)
    ensures EvenGapOk(1121, 2) && EvenGapOk(1123, 6) && EvenGapOk(1129, 10)
    ensures EvenGapOk(1139, 8) && EvenGapOk(1147, 4) && EvenGapOk(1151, 2) && EvenGapOk(1153, 4)
    ensures EvenGapOk(1157, 2) && EvenGapOk(1159, 4) && EvenGapOk(1163, 8)
    ensures EvenGapOk(1171, 10) && EvenGapOk(1181, 6) && EvenGapOk(1187, 2) && EvenGapOk(1189, 4)
    ensures EvenGapOk(1193, 8) && EvenGapOk(1201, 6) && EvenGapOk(1207, 6)
  {
  }

  lemma Row11()
    ensures RowFrom(ROW11, 0, 1097, 1213)
  {
    hide EvenGapOk;
    Gaps11();
    assert RowFrom(ROW11, 21, 1213, 1213) && RowFrom(ROW11, 16, 1187, 1213);
    assert RowFrom(ROW11, 11, 1157, 1213) && RowFrom(ROW11, 6, 1129, 1213);
  }

  lemma Gaps12()
    ensures EvenGapOk(1213, 4) && EvenGapOk(1217, 2) && EvenGapOk(1219, 4) && EvenGapOk(1223, 6)
    ensures EvenGapOk(1229, 2) && EvenGapOk(1231, 6) && EvenGapOk(1237, 4)
    ensures EvenGapOk(1241, 6) && EvenGapOk(1247, 2) && EvenGapOk(1249, 10) && EvenGapOk(1259, 2)
    ensures EvenGapOk(1261, 10) && EvenGapOk(1271, 2) && EvenGapOk(1273, 4)
    ensures EvenGapOk(1277, 2) && EvenGapOk(1279, 4) && EvenGapOk(1283, 6) && EvenGapOk(1289, 2)
    ensures EvenGapOk(1291, 6) && EvenGapOk(1297, 4) && EvenGapOk(1301, 2)
  {
  }

  lemma Row12()
    ensures RowFrom(ROW12, 0, 1213, 1303)
  {
    hide EvenGapOk;
    Gaps12();
    assert RowFrom(ROW12, 21, 1303, 1303) && RowFrom(ROW12, 16, 1283, 1303);
    assert RowFrom(ROW12, 11, 1261, 1303) && RowFrom(ROW12, 6, 1237, 1303);
  }

  lemma Gaps13()
    ensures EvenGapOk(1303, 4) && EvenGapOk(1307, 6) && EvenGapOk(1313, 6) && EvenGapOk(1319, 2)
    ensures EvenGapOk(1321, 6) && EvenGapOk(1327, 6) && EvenGapOk(1333, 6)
    ensures EvenGapOk(1339, 4) && EvenGapOk(1343, 6) && EvenGapOk(1349, 8) && EvenGapOk(1357, 4)
    ensures EvenGapOk(1361, 2) && EvenGapOk(1363, 4) && EvenGapOk(1367, 2)
    ensures EvenGapOk(1369, 4) && EvenGapOk(1373, 8) && EvenGapOk(1381, 6) && EvenGapOk(1387, 4)
    ensures EvenGapOk(1391, 8) && EvenGapOk(1399, 4) && EvenGapOk(1403, 6)
  {
  }

  lemma Row13()
    ensures RowFrom(ROW13, 0, 1303, 1409)
  {
    hide EvenGapOk;
    Gaps13();
    assert RowFrom(ROW13, 21, 1409, 1409) && RowFrom(ROW13, 16, 1381, 1409);
    assert RowFrom(ROW13, 11, 1361, 1409) && RowFrom(ROW13, 6, 1333, 1409);
  }

  lemma Gaps14()
    ensures EvenGapOk(1409, 2) && EvenGapOk(1411, 6) && EvenGapOk(1417, 6) && EvenGapOk(1423, 4)
    ensures EvenGapOk(1427, 2) && EvenGapOk(1429, 4) && EvenGapOk(1433, 6)
    ensures EvenGapOk(1439, 8) && EvenGapOk(1447, 4) && EvenGapOk(1451, 2) && EvenGapOk(1453, 4)
    ensures EvenGapOk(1457, 2) && EvenGapOk(1459, 10) && EvenGapOk(1469, 2)
    ensures EvenGapOk(1471, 10) && EvenGapOk(1481, 2) && EvenGapOk(1483, 4) && EvenGapOk(1487, 2)
    ensures EvenGapOk(1489, 4) && EvenGapOk(1493, 6) && EvenGapOk(1499, 2)
  {
  }

  lemma Row14()
    ensures RowFrom(ROW14, 0, 1409, 1501)
  {
    hide EvenGapOk;
    Gaps14();
    assert RowFrom(ROW14, 21, 1501, 1501) && RowFrom(ROW14, 16, 1483, 1501);
    assert RowFrom(ROW14, 11, 1457, 1501) && RowFrom(ROW14, 6, 1433, 1501);
  }

  lemma Gaps15()
    ensures EvenGapOk(1501, 10) && EvenGapOk(1511, 2) && EvenGapOk(1513, 4) && EvenGapOk(1517, 6)
    ensures EvenGapOk(1523, 8) && EvenGapOk(1531, 6) && EvenGapOk(1537, 4)
    ensures EvenGapOk(1541, 2) && EvenGapOk(1543, 6) && EvenGapOk(1549, 4) && EvenGapOk(1553, 6)
    ensures EvenGapOk(1559, 8) && EvenGapOk(1567, 4) && EvenGapOk(1571, 6)
    ensures EvenGapOk(1577, 2) && EvenGapOk(1579, 4) && EvenGapOk(1583, 8) && EvenGapOk(1591, 6)
    ensures EvenGapOk(1597, 4) && EvenGapOk(1601, 6) && EvenGapOk(1607, 2)
  {
  }

  lemma Row15()
    ensures RowFrom(ROW15, 0, 1501, 1609)
  {
    hide EvenGapOk;
    Gaps15();
    assert RowFrom(ROW15, 21, 1609, 1609) && RowFrom(ROW15, 16, 1583, 1609);
    assert RowFrom(ROW15, 11, 1559, 1609) && RowFrom(ROW15, 6, 1537, 1609);
  }

  lemma Gaps16()
    ensures EvenGapOk(1609, 4) && EvenGapOk(1613, 6) && EvenGapOk(1619, 2) && EvenGapOk(1621, 6)
    ensures EvenGapOk(1627, 6) && EvenGapOk(1633, 4) && EvenGapOk(1637, 6)
    ensures EvenGapOk(1643, 6) && EvenGapOk(1649, 2) && EvenGapOk(1651, 6) && EvenGapOk(1657, 6)
    ensures EvenGapOk(1663, 4) && EvenGapOk(1667, 2) && EvenGapOk(1669, 10)
    ensures EvenGapOk(1679, 2) && EvenGapOk(1681, 10) && EvenGapOk(1691, 2) && EvenGapOk(1693, 4)
    ensures EvenGapOk(1697, 2) && EvenGapOk(1699, 4) && EvenGapOk(1703, 6)
  {
  }

  lemma Row16()
    ensures RowFrom(ROW16, 0, 1609, 1709)
  {
    hide EvenGapOk;
    Gaps16();
    assert RowFrom(ROW16, 21, 1709, 1709) && RowFrom(ROW16, 16, 1691, 1709);
    assert RowFrom(ROW16, 11, 1663, 1709) && RowFrom(ROW16, 6, 1637, 1709);
  }

  lemma Gaps17()
    ensures EvenGapOk(1709, 2) && EvenGapOk(1711, 6) && EvenGapOk(1717, 4) && EvenGapOk(1721, 2)
    ensures EvenGapOk(1723, 10) && EvenGapOk(1733, 6) && EvenGapOk(1739, 2)
    ensures EvenGapOk(1741, 6) && EvenGapOk(1747, 4) && EvenGapOk(1751, 2) && EvenGapOk(1753, 6)
    ensures EvenGapOk(1759, 4) && EvenGapOk(1763, 6) && EvenGapOk(1769, 8)
    ensures EvenGapOk(1777, 4) && EvenGapOk(1781, 2) && EvenGapOk(1783, 4) && EvenGapOk(1787, 2)
    ensures EvenGapOk(1789, 12) && EvenGapOk(1801, 6) && EvenGapOk(1807, 4)
  {
  }

  lemma Row17()
    ensures RowFrom(ROW17, 0, 1709, 1811)
  {
    hide EvenGapOk;
    Gaps17();
    assert RowFrom(ROW17, 21, 1811, 1811) && RowFrom(ROW17, 16, 1783, 1811);
    assert RowFrom(ROW17, 11, 1759, 1811) && RowFrom(ROW17, 6, 1739, 1811);
  }

  lemma Gaps18()
    ensures EvenGapOk(1811, 6) && EvenGapOk(1817, 2) && EvenGapOk(1819, 4) && EvenGapOk(1823, 6)
    ensures EvenGapOk(1829, 2) && EvenGapOk(1831, 12) && EvenGapOk(1843, 4)
    ensures EvenGapOk(1847, 2) && EvenGapOk(1849, 4) && EvenGapOk(1853, 8) && EvenGapOk(1861, 6)
    ensures EvenGapOk(1867, 4) && EvenGapOk(1871, 2) && EvenGapOk(1873, 4)
    ensures EvenGapOk(1877, 2) && EvenGapOk(1879, 10) && EvenGapOk(1889, 2) && EvenGapOk(1891, 10)
    ensures EvenGapOk(1901, 6) && EvenGapOk(1907, 2) && EvenGapOk(1909, 4)
  {
  }

  lemma Row18()
    ensures RowFrom(ROW18, 0, 1811, 1913)
  {
    hide EvenGapOk;
    Gaps18();
    assert RowFrom(ROW18, 21, 1913, 1913) && RowFrom(ROW18, 16, 1889, 1913);
    assert RowFrom(ROW18, 11, 1867, 1913) && RowFrom(ROW18, 6, 1843, 1913);
  }

  lemma Gaps19()
    ensures EvenGapOk(1913, 6) && EvenGapOk(1919, 2) && EvenGapOk(1921, 6) && EvenGapOk(1927, 4)
    ensures EvenGapOk(1931, 2) && EvenGapOk(1933, 4) && EvenGapOk(1937, 6)
    ensures EvenGapOk(1943, 6) && EvenGapOk(1949, 2) && EvenGapOk(1951, 6) && EvenGapOk(1957, 4)
    ensures EvenGapOk(1961, 2) && EvenGapOk(1963, 10) && EvenGapOk(1973, 6)
    ensures EvenGapOk(1979, 8) && EvenGapOk(1987, 6) && EvenGapOk(1993, 4) && EvenGapOk(1997, 2)
    ensures EvenGapOk(1999, 4) && EvenGapOk(2003, 8) && EvenGapOk(2011, 6)
  {
  }

  lemma Row19()
    ensures RowFrom(ROW19, 0, 1913, 2017)
  {
    hide EvenGapOk;
    Gaps19();
    assert RowFrom(ROW19, 21, 2017, 2017) && RowFrom(ROW19, 16, 1993, 2017);
    assert RowFrom(ROW19, 11, 1961, 2017) && RowFrom(ROW19, 6, 1937, 2017);
  }

  lemma Gaps20()
    ensures EvenGapOk(2017, 4) && EvenGapOk(2021, 6) && EvenGapOk(2027, 2) && EvenGapOk(2029, 4)
    ensures EvenGapOk(2033, 6) && EvenGapOk(2039, 2) && EvenGapOk(2041, 6)
    ensures EvenGapOk(2047, 6) && EvenGapOk(2053, 6) && EvenGapOk(2059, 4) && EvenGapOk(2063, 6)
    ensures EvenGapOk(2069, 2) && EvenGapOk(2071, 6) && EvenGapOk(2077, 4)
    ensures EvenGapOk(2081, 2) && EvenGapOk(2083, 4) && EvenGapOk(2087, 2) && EvenGapOk(2089, 10)
    ensures EvenGapOk(2099, 12) && EvenGapOk(2111, 2) && EvenGapOk(2113, 4)
  {
  }

  lemma Row20()
    ensures RowFrom(ROW20, 0, 2017, 2117)
  {
    hide EvenGapOk;
    Gaps20();
    assert RowFrom(ROW20, 21, 2117, 2117) && RowFrom(ROW20, 16, 2087, 2117);
    assert RowFrom(ROW20, 11, 2069, 2117) && RowFrom(ROW20, 6, 2041, 2117);
  }

  lemma Gaps21()
    ensures EvenGapOk(2117, 2) && EvenGapOk(2119, 10) && EvenGapOk(2129, 2) && EvenGapOk(2131, 6)
    ensures EvenGapOk(2137, 4) && EvenGapOk(2141, 2) && EvenGapOk(2143, 4)
    ensures EvenGapOk(2147, 6) && EvenGapOk(2153, 6) && EvenGapOk(2159, 2) && EvenGapOk(2161, 10)
    ensures EvenGapOk(2171, 2) && EvenGapOk(2173, 6) && EvenGapOk(2179, 4)
    ensures EvenGapOk(2183, 14) && EvenGapOk(2197, 4) && EvenGapOk(2201, 2) && EvenGapOk(2203, 4)
    ensures EvenGapOk(2207, 2) && EvenGapOk(2209, 4) && EvenGapOk(2213, 8)
  {
  }

  lemma Row21()
    ensures RowFrom(ROW21, 0, 2117, 2221)
  {
    hide EvenGapOk;
    Gaps21();
    assert RowFrom(ROW21, 21, 2221, 2221) && RowFrom(ROW21, 16, 2201, 2221);
    assert RowFrom(ROW21, 11, 2171, 2221) && RowFrom(ROW21, 6, 2143, 2221);
  }

  lemma Gaps22()
    ensures EvenGapOk(2221, 6) && EvenGapOk(2227, 4) && EvenGapOk(2231, 6) && EvenGapOk(2237, 2)
    ensures EvenGapOk(2239, 4) && EvenGapOk(2243, 6) && EvenGapOk(2249, 2)
    ensures EvenGapOk(2251, 6) && EvenGapOk(2257, 6) && EvenGapOk(2263, 4) && EvenGapOk(2267, 2)
    ensures EvenGapOk(2269, 4) && EvenGapOk(2273, 6) && EvenGapOk(2279, 2)
    ensures EvenGapOk(2281, 6) && EvenGapOk(2287, 4) && EvenGapOk(2291, 2) && EvenGapOk(2293, 4)
    ensures EvenGapOk(2297, 12) && EvenGapOk(2309, 2) && EvenGapOk(2311, 12)
  {
  }

  lemma Row22()
    ensures RowFrom(ROW22, 0, 2221, 2323)
  {
    hide EvenGapOk;
    Gaps22();
    assert RowFrom(ROW22, 21, 2323, 2323) && RowFrom(ROW22, 16, 2291, 2323);
    assert RowFrom(ROW22, 11, 2269, 2323) && RowFrom(ROW22, 6, 2249, 2323);
  }

  lemma RowIsOk(k: nat)
    requires k < 23
    ensures |ROWS| == 23 && |STARTS| == 24 && |ROWS[k]| == 21
    ensures RowFrom(ROWS[k], 0, STARTS[k], STARTS[k + 1]) && STARTS[k] % 2 == 1
    ensures STARTS[k] > 2
  {
    hide RowFrom;
    if k == 0 { Row0(); }
    if k == 1 { Row1(); }
    if k == 2 { Row2(); }
    if k == 3 { Row3(); }
    if k == 4 { Row4(); }
    if k == 5 { Row5(); }
    if k == 6 { Row6(); }
    if k == 7 { Row7(); }
    if k == 8 { Row8(); }
    if k == 9 { Row9(); }
    if k == 10 { Row10(); }
    if k == 11 { Row11(); }
    if k == 12 { Row12(); }
    if k == 13 { Row13(); }
    if k == 14 { Row14(); }
    if k == 15 { Row15(); }
    if k == 16 { Row16(); }
    if k == 17 { Row17(); }
    if k == 18 { Row18(); }
    if k == 19 { Row19(); }
    if k == 20 { Row20(); }
    if k == 21 { Row21(); }
    if k == 22 { Row22(); }
  }
}
