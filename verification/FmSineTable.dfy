/**
 A quarter of a sine in 256 steps, from 0 to SHRT_MAX, with one entry more at
 each end for the interpolation.
 */
module FmSineTable {

  const ROW0: seq<int> := [
    0, 201, 402, 603, 804, 1005, 1206, 1406, 1607, 1808, 2009, 2209, 2410, 2610, 2811, 3011,
    3211, 3411, 3611, 3811, 4011, 4210, 4409, 4608, 4807, 5006, 5205, 5403, 5601, 5799, 5997, 6195]

  const ROW1: seq<int> := [
    6392, 6589, 6786, 6982, 7179, 7375, 7571, 7766, 7961, 8156, 8351, 8545, 8739, 8932, 9126, 9319,
    9511, 9703, 9895, 10087, 10278, 10469, 10659, 10849, 11038, 11227, 11416, 11604, 11792, 11980, 12166, 12353]

  const ROW2: seq<int> := [
    12539, 12724, 12909, 13094, 13278, 13462, 13645, 13827, 14009, 14191, 14372, 14552, 14732, 14911, 15090, 15268,
    15446, 15623, 15799, 15975, 16150, 16325, 16499, 16672, 16845, 17017, 17189, 17360, 17530, 17699, 17868, 18036]

  const ROW3: seq<int> := [
    18204, 18371, 18537, 18702, 18867, 19031, 19194, 19357, 19519, 19680, 19840, 20000, 20159, 20317, 20474, 20631,
    20787, 20942, 21096, 21249, 21402, 21554, 21705, 21855, 22004, 22153, 22301, 22448, 22594, 22739, 22883, 23027]

  const ROW4: seq<int> := [
    23169, 23311, 23452, 23592, 23731, 23869, 24006, 24143, 24278, 24413, 24546, 24679, 24811, 24942, 25072, 25201,
    25329, 25456, 25582, 25707, 25831, 25954, 26077, 26198, 26318, 26437, 26556, 26673, 26789, 26905, 27019, 27132]

  const ROW5: seq<int> := [
    27244, 27355, 27466, 27575, 27683, 27790, 27896, 28001, 28105, 28208, 28309, 28410, 28510, 28608, 28706, 28802,
    28897, 28992, 29085, 29177, 29268, 29358, 29446, 29534, 29621, 29706, 29790, 29873, 29955, 30036, 30116, 30195]

  const ROW6: seq<int> := [
    30272, 30349, 30424, 30498, 30571, 30643, 30713, 30783, 30851, 30918, 30984, 31049, 31113, 31175, 31236, 31297,
    31356, 31413, 31470, 31525, 31580, 31633, 31684, 31735, 31785, 31833, 31880, 31926, 31970, 32014, 32056, 32097]

  const ROW7: seq<int> := [
    32137, 32176, 32213, 32249, 32284, 32318, 32350, 32382, 32412, 32441, 32468, 32495, 32520, 32544, 32567, 32588,
    32609, 32628, 32646, 32662, 32678, 32692, 32705, 32717, 32727, 32736, 32744, 32751, 32757, 32761, 32764, 32766]

  function Row(k: nat): (row: seq<int>)
    requires k < 8
    ensures |row| == 32
  {
    match k
    case 0 => ROW0
    case 1 => ROW1
    case 2 => ROW2
    case 3 => ROW3
    case 4 => ROW4
    case 5 => ROW5
    case 6 => ROW6
    case _ => ROW7
  }

  /** s_sintbl */
  function Sine(i: nat): int
    requires i < 258
  {
    if i == 0 then -201 else if i == 257 then 32767 else Row((i - 1) / 32)[(i - 1) % 32]
  }

  /** The entries of a row rise and are 16-bit numbers. */
  predicate RowOk(row: seq<int>) {
    && (forall i :: 0 <= i < |row| ==> 0 <= row[i] <= 32767)
    && (forall i, j :: 0 <= i && j == i + 1 < |row| ==> row[i] <= row[j])
  }

  lemma {:induction false} Row0Ok() ensures RowOk(ROW0) {}

  lemma {:induction false} Row1Ok() ensures RowOk(ROW1) {}

  lemma {:induction false} Row2Ok() ensures RowOk(ROW2) {}

  lemma {:induction false} Row3Ok() ensures RowOk(ROW3) {}

  lemma {:induction false} Row4Ok() ensures RowOk(ROW4) {}

  lemma {:induction false} Row5Ok() ensures RowOk(ROW5) {}

  lemma {:induction false} Row6Ok() ensures RowOk(ROW6) {}

  lemma {:induction false} Row7Ok() ensures RowOk(ROW7) {}

  lemma {:induction false} RowIsOk(k: nat)
    requires k < 8
    ensures RowOk(Row(k))
  {
    match k
    case 0 => Row0Ok();
    case 1 => Row1Ok();
    case 2 => Row2Ok();
    case 3 => Row3Ok();
    case 4 => Row4Ok();
    case 5 => Row5Ok();
    case 6 => Row6Ok();
    case _ => Row7Ok();
  }

  lemma {:induction false} RowsJoin(k: nat)
    requires k < 8
    ensures Row(k)[31] <= if k < 7 then Row(k + 1)[0] else 32767
  {}

  /** The entries that the wave generator uses are not negative. */
  lemma {:induction false} SineWithin(i: nat)
    requires 1 <= i < 258
    ensures 0 <= Sine(i) <= 32767
  {
    if i < 257 { RowIsOk((i - 1) / 32); }
  }

  /** The table rises over the quarter of a turn that it covers. */
  lemma {:induction false} SineRises(i: nat)
    requires 1 <= i < 257
    ensures Sine(i) <= Sine(i + 1)
  {
    var (k, c) := ((i - 1) / 32, (i - 1) % 32);
    RowIsOk(k);
    RowsJoin(k);
    if c < 31 { assert i / 32 == k && i % 32 == c + 1; }
  }
}
