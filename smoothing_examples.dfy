/**
 * The worked examples in the settings comments of the three versions,
 * evaluated against the model of smoothAxis. Where the comment and the loop
 * disagree, the lemmas state what the loop does.
 */
module SmoothingExamples {
  import opened JsMath
  import opened Quotient
  import opened Smoothing

  /** 15 / 7 = 2.142857...: its decimal at four places is 0.1429, not nice. */
  lemma FifteenOverSevenNotNice()
    ensures !Nice(15.0, 7, NiceDecimals)
  {
    assert Trunc(15.0 / 7.0) == 2;
    assert ModOne(15.0 / 7.0) == 1.0 / 7.0;
  }

  /** 15 / 6 = 2.5: its decimal is 0.5, nice. */
  lemma FifteenOverSixNice()
    ensures Nice(15.0, 6, NiceDecimals)
  {
    assert Trunc(15.0 / 6.0) == 2;
    assert ModOne(15.0 / 6.0) == 0.5;
    assert IsWhole(0.5 * 10000.0);
    ExactFractionKept(15.0, 6.0);
  }

  /** 12 / 5 = 2.4: its decimal is 0.4, not nice. */
  lemma TwelveOverFiveNotNice()
    ensures !Nice(12.0, 5, NiceDecimals)
  {
    assert Trunc(12.0 / 5.0) == 2;
    assert ModOne(12.0 / 5.0) == 0.4;
    assert IsWhole(0.4 * 10000.0);
    ExactFractionKept(12.0, 5.0);
  }

  /** 12 / 4 = 3 exactly: its decimal is 0, nice. */
  lemma TwelveOverFourNice()
    ensures Nice(12.0, 4, NiceDecimals)
  {
    ExactDivisionIsZero(3, 4.0, Places(4));
    assert 3 as real * 4.0 == 12.0;
  }

  /**
   * The 2.0.0 settings comment: a 15 kHz range over 7 divisions with
   * smoothing 1 becomes 6 divisions (7 is tested twice in pass 0, then 6).
   */
  lemma FifteenKilohertzExample()
    ensures Smoothed(15.0, 7, NiceDecimals, 1) == 6
  {
    FifteenOverSevenNotNice();
    FifteenOverSixNice();
    var scan := ScanOrder(7, 1);
    CandidatesAt(7, true, 2, 0);
    CandidatesAt(7, true, 2, 1);
    assert scan[0] == 7 && scan[1] == 7 && scan[2] == 6;
    FirstFound(15.0, 7, NiceDecimals, 1, 2);
  }

  /**
   * The 1.0.0 settings comment: 12 kHz over 5 divisions with smoothing 2.
   * The comment says 5 + 1 is tried first and 6 is chosen; the loop tries
   * 5 - 1 first and chooses 4.
   */
  lemma TwelveKilohertzPositiveSmoothing()
    ensures Smoothed(12.0, 5, NiceDecimals, 2) == 4
  {
    TwelveOverFiveNotNice();
    TwelveOverFourNice();
    var scan := ScanOrder(5, 2);
    CandidatesAt(5, true, 3, 0);
    CandidatesAt(5, true, 3, 1);
    assert scan[0] == 5 && scan[1] == 5 && scan[2] == 4;
    FirstFound(12.0, 5, NiceDecimals, 2, 2);
  }

  /**
   * The same comment says smoothing -2 tries 5 - 1 first and chooses 4; the
   * loop never runs for a negative distance and keeps 5.
   */
  lemma TwelveKilohertzNegativeSmoothing()
    ensures Smoothed(12.0, 5, NiceDecimals, -2) == 5
  {
    NegativeDistanceKeepsBase(12.0, 5, NiceDecimals, -2);
  }

  /** The default player: 20 kHz over 200 / 40 = 5 divisions is already nice and stays 5. */
  lemma DefaultPlayerKeepsFive()
    ensures Smoothed(20.0, 5, NiceDecimals, 2) == 5
  {
    ExactDivisionIsZero(4, 5.0, Places(4));
    assert 4 as real * 5.0 == 20.0;
    NiceBaseKept(20.0, 5, NiceDecimals, 2);
  }
}
