/** The two supported Cyclone IV GX kits: how the script tells them apart, and
    the static rail and expected-current tables of each. */
module Boards {
  import opened Wrappers
  import opened RubyStrings
  import opened Transcript

  datatype Board = TransceiverKit | DevelopmentKit

  /** One ADC channel: the label printed in the report, the sense resistor,
      the channel in the vendor's power-monitor GUI (nil for an unused channel),
      the channel's column in the expected-current table, and the rail number
      the sampling script prints ("Rail N"). */
  datatype RailConfig = RailConfig(
    name: string,
    resistorOhms: real,
    powerMonitorListIndex: Option<nat>,
    adcChannelIndex: nat,
    railNumFromScript: nat)

  /** FPGA device strings the debug console prints for each kit. */
  const DevelopmentKitDevice: string := "EP4CGX150@"
  const TransceiverKitDevice: string := "EP4CGX15@"

  /** The board detection of the script: the development-kit device is looked
      for first, so it wins when both device strings appear. */
  function DetectedBoard(lines: seq<string>): (b: Option<Board>)
    ensures b == Some(DevelopmentKit) <==> AnyLineContains(lines, DevelopmentKitDevice)
    ensures b == Some(TransceiverKit) <==>
              AnyLineContains(lines, TransceiverKitDevice) && !AnyLineContains(lines, DevelopmentKitDevice)
    ensures b == None <==>
              !AnyLineContains(lines, TransceiverKitDevice) && !AnyLineContains(lines, DevelopmentKitDevice)
  {
    if GetLineMatching(lines, DevelopmentKitDevice).Some? then Some(DevelopmentKit)
    else if GetLineMatching(lines, TransceiverKitDevice).Some? then Some(TransceiverKit)
    else None
  }

  /** Neither device string is a substring of the other ("EP4CGX150@" has a
      '0' where "EP4CGX15@" has its '@'), so a line naming one kit never also
      matches the other's test. */
  lemma DeviceStringsAreIndependent()
    ensures !Contains(DevelopmentKitDevice, TransceiverKitDevice)
    ensures !Contains(TransceiverKitDevice, DevelopmentKitDevice)
  {
    ContainsIffOccurs(DevelopmentKitDevice, TransceiverKitDevice);
    ContainsIffOccurs(TransceiverKitDevice, DevelopmentKitDevice);
    assert DevelopmentKitDevice[0..9][8] != TransceiverKitDevice[8];
    assert DevelopmentKitDevice[1..10][0] != TransceiverKitDevice[0];
  }

  const TransceiverKitRails: seq<RailConfig> := [
    //        name            ohms   PM idx    ADC idx  rail #
    RailConfig("2.5_VCC",      0.003, Some(0), 0,       8),
    RailConfig("1.2_VCCL_GXB", 0.003, Some(1), 1,       1),
    RailConfig("2.5_VCC_GXB",  0.003, Some(2), 2,       2),
    RailConfig("2.5_VCCIO",    0.003, Some(3), 3,       3),
    RailConfig("1.2_VCCINT",   0.003, Some(4), 4,       4),
    RailConfig("1.2_VCCD_PLL", 0.003, Some(5), 5,       5),
    RailConfig("open",         0.003, None,    6,       6),
    RailConfig("open",         0.003, None,    7,       7)
  ]

  const DevelopmentKitRails: seq<RailConfig> := [
    //        name                  ohms   PM idx    ADC idx  rail #
    RailConfig("VCCA",               0.003, Some(0), 0,       1),
    RailConfig("2.5V_VCCA_VCCH_GXB", 0.003, Some(1), 1,       2),
    RailConfig("2.5V_B5_B6",         0.009, Some(2), 2,       3),
    RailConfig("1.8V_B3_B4",         0.009, Some(3), 3,       4),
    RailConfig("1.8V_B7_B8",         0.009, Some(4), 4,       5),
    RailConfig("VCC",                0.003, Some(5), 5,       6),
    RailConfig("1.2V_VCCL_GXB",      0.003, Some(6), 6,       7),
    RailConfig("VCCD_PLL",           0.003, Some(7), 7,       8)
  ]

  /** Currents (A) the vendor's power-monitor GUI shows for each kit's default
      design, by ADC channel. */
  const TransceiverKitExpected: seq<real> := [0.040, 0.067, 0.057, 0.006, 0.168, 0.033, 0.000, 0.000]
  const DevelopmentKitExpected: seq<real> := [0.043, 0.011, 0.000, 0.000, 0.004, 0.304, 0.004, 0.027]

  /** What the report relies on in a board's tables: eight rails whose ADC
      indices run 0..7 in list order and index the eight expected currents,
      whose script rail numbers are a permutation of 1..8, and whose sense
      resistors are positive. */
  predicate WellFormedTables(rails: seq<RailConfig>, expected: seq<real>) {
    && |rails| == 8
    && |expected| == 8
    && (forall i :: 0 <= i < |rails| ==> rails[i].adcChannelIndex == i)
    && (forall i :: 0 <= i < |rails| ==> rails[i].adcChannelIndex < |expected|)
    && (forall i :: 0 <= i < |rails| ==> 1 <= rails[i].railNumFromScript <= 8)
    && (forall i, j :: 0 <= i < j < |rails| ==> rails[i].railNumFromScript != rails[j].railNumFromScript)
    && (forall i :: 0 <= i < |rails| ==> rails[i].resistorOhms > 0.0)
  }

  function ExpectedReadings(board: Board): (expected: seq<real>)
    ensures |expected| == 8
    ensures forall i :: 0 <= i < |expected| ==> 0.0 <= expected[i] < 1.0
  {
    match board
    case TransceiverKit => TransceiverKitExpected
    case DevelopmentKit => DevelopmentKitExpected
  }

  function Rails(board: Board): (rails: seq<RailConfig>)
    ensures WellFormedTables(rails, ExpectedReadings(board))
  {
    match board
    case TransceiverKit =>
      TablesWellFormed(TransceiverKitRails, TransceiverKitExpected, [8, 1, 2, 3, 4, 5, 6, 7]);
      TransceiverKitRails
    case DevelopmentKit =>
      TablesWellFormed(DevelopmentKitRails, DevelopmentKitExpected, [1, 2, 3, 4, 5, 6, 7, 8]);
      DevelopmentKitRails
  }

  /** A table is well formed once its rail numbers are known to be a given
      arrangement of 1..8. */
  lemma TablesWellFormed(rails: seq<RailConfig>, expected: seq<real>, nums: seq<nat>)
    requires |rails| == 8 && |expected| == 8 && |nums| == 8
    requires forall i :: 0 <= i < 8 ==> rails[i].adcChannelIndex == i
    requires forall i :: 0 <= i < 8 ==> rails[i].resistorOhms > 0.0
    requires forall i :: 0 <= i < 8 ==> rails[i].railNumFromScript == nums[i]
    requires forall i :: 0 <= i < 8 ==> 1 <= nums[i] <= 8
    requires forall i, j :: 0 <= i < j < 8 ==> nums[i] != nums[j]
    ensures WellFormedTables(rails, expected)
  {
  }

  /** Every rail number 1..8 is some rail's, so each "Rail N" line of the
      script is reported under exactly one rail of either board. */
  lemma EveryRailNumberIsListed(board: Board, n: nat)
    requires 1 <= n <= 8
    ensures exists i :: 0 <= i < |Rails(board)| && Rails(board)[i].railNumFromScript == n
  {
    var i := match board
      case TransceiverKit => if n == 8 then 0 else n
      case DevelopmentKit => n - 1;
    assert Rails(board)[i].railNumFromScript == n;
  }
}
