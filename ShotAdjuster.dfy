/**
 * The shot adjuster of the WGT shot calculator: it corrects a base carry
 * distance for the elevation change to the target and for the wind, scaled
 * by how sensitive the chosen club is to each.
 *
 * Floating point is modelled by exact reals. The wind angle enters only
 * through the cosine and the sine of its radian value, which are taken as
 * inputs (`windCos`, `windSin`) so that the algebra around them can be
 * verified without trigonometry.
 */
module ShotAdjuster {

  /** How strongly a club's carry reacts to elevation change and to wind. */
  datatype Factors = Factors(elevation: real, wind: real)

  /** The per-club sensitivity table: fifteen clubs, Driver to Lob Wedge. */
  const ClubFactors: map<string, Factors> := map[
    "Driver" := Factors(0.25, 0.08),
    "3-Wood" := Factors(0.3, 0.09),
    "5-Wood" := Factors(0.35, 0.1),
    "Hybrid" := Factors(0.38, 0.11),
    "3-Iron" := Factors(0.4, 0.12),
    "4-Iron" := Factors(0.42, 0.13),
    "5-Iron" := Factors(0.44, 0.14),
    "6-Iron" := Factors(0.46, 0.15),
    "7-Iron" := Factors(0.48, 0.16),
    "8-Iron" := Factors(0.5, 0.17),
    "9-Iron" := Factors(0.52, 0.18),
    "Pitching Wedge" := Factors(0.54, 0.19),
    "Gap Wedge" := Factors(0.56, 0.2),
    "Sand Wedge" := Factors(0.58, 0.21),
    "Lob Wedge" := Factors(0.6, 0.22)
  ]

  /** Adjusted carry and sideways drift, both in yards. */
  datatype ShotResult = ShotResult(adjustedDistance: real, lateralAdjustment: real)

  /** Either the adjusted shot or the club name that is not in the table. */
  datatype ShotOutcome = Adjusted(shot: ShotResult) | UnknownClub(club: string)

  /**
   * The adjusted shot for a base distance (yards), an elevation change
   * (feet), a wind speed (mph) whose direction makes the given cosine and
   * sine with the line of the shot, and a club. A club missing from the
   * factor table is an error, never a default.
   */
  function CalculateAdjustedShot(baseDistance: real, elevation: real, windSpeed: real,
                                 windCos: real, windSin: real, club: string): (r: ShotOutcome)
    ensures r.Adjusted? <==> club in ClubFactors
    ensures r.UnknownClub? ==> r.club == club
  {
    if club !in ClubFactors then UnknownClub(club)
    else
      var elevationFactor := ClubFactors[club].elevation;
      var windFactor := ClubFactors[club].wind;
      var elevationAdjustment := elevation * 0.33 * elevationFactor;
      var effectiveWindSpeed := windSpeed * windCos;
      var windAdjustment := effectiveWindSpeed * windFactor;
      var adjustedDistance := baseDistance + elevationAdjustment + windAdjustment;
      var lateralWindSpeed := windSpeed * windSin;
      var lateralAdjustment := lateralWindSpeed * windFactor;
      Adjusted(ShotResult(adjustedDistance, lateralAdjustment))
  }

  /** The adjusted carry of a known club. */
  function Carry(baseDistance: real, elevation: real, windSpeed: real,
                 windCos: real, windSin: real, club: string): (carry: real)
    requires club in ClubFactors
  {
    CalculateAdjustedShot(baseDistance, elevation, windSpeed, windCos, windSin, club).shot.adjustedDistance
  }

  /** The sideways drift of a known club. */
  function Drift(baseDistance: real, elevation: real, windSpeed: real,
                 windCos: real, windSin: real, club: string): (drift: real)
    requires club in ClubFactors
  {
    CalculateAdjustedShot(baseDistance, elevation, windSpeed, windCos, windSin, club).shot.lateralAdjustment
  }

  /** Every sensitivity in the table is a fraction strictly between 0 and 1. */
  lemma FactorsAreFractions(club: string)
    requires club in ClubFactors
    ensures 0.0 < ClubFactors[club].elevation < 1.0
    ensures 0.0 < ClubFactors[club].wind < 1.0
  {
  }

  /** With no elevation change and no wind the shot is unchanged, whatever the angle. */
  lemma CalmFlatShotIsUnchanged(baseDistance: real, windCos: real, windSin: real, club: string)
    requires club in ClubFactors
    ensures CalculateAdjustedShot(baseDistance, 0.0, 0.0, windCos, windSin, club)
            == Adjusted(ShotResult(baseDistance, 0.0))
  {
  }

  /**
   * The two corrections are independent and add up: the carry is the base
   * distance plus the elevation-only correction plus the wind-only
   * correction, and the drift depends on the wind alone.
   */
  lemma CorrectionsSuperpose(baseDistance: real, elevation: real, windSpeed: real,
                             windCos: real, windSin: real, club: string)
    requires club in ClubFactors
    ensures Carry(baseDistance, elevation, windSpeed, windCos, windSin, club)
            == baseDistance
               + Carry(0.0, elevation, 0.0, windCos, windSin, club)
               + Carry(0.0, 0.0, windSpeed, windCos, windSin, club)
    ensures Drift(baseDistance, elevation, windSpeed, windCos, windSin, club)
            == Drift(0.0, 0.0, windSpeed, windCos, windSin, club)
  {
  }

  /** Scaling the elevation change and the wind speed scales both corrections alike. */
  lemma CorrectionsScale(k: real, elevation: real, windSpeed: real,
                         windCos: real, windSin: real, club: string)
    requires club in ClubFactors
    ensures Carry(0.0, k * elevation, k * windSpeed, windCos, windSin, club)
            == k * Carry(0.0, elevation, windSpeed, windCos, windSin, club)
    ensures Drift(0.0, k * elevation, k * windSpeed, windCos, windSin, club)
            == k * Drift(0.0, elevation, windSpeed, windCos, windSin, club)
  {
  }

  /**
   * Elevation change in feet moves the carry the same way, but by less than
   * its value in yards (0.33 yards per foot): playing uphill adds distance,
   * downhill removes it.
   */
  lemma ElevationCorrectionIsBounded(baseDistance: real, elevation: real,
                                     windCos: real, windSin: real, club: string)
    requires club in ClubFactors
    ensures elevation > 0.0 ==>
              baseDistance < Carry(baseDistance, elevation, 0.0, windCos, windSin, club)
                           < baseDistance + 0.33 * elevation
    ensures elevation < 0.0 ==>
              baseDistance + 0.33 * elevation
                < Carry(baseDistance, elevation, 0.0, windCos, windSin, club) < baseDistance
  {
  }

  /**
   * A tailwind component (positive cosine) lengthens the shot and a
   * headwind shortens it; the drift has the sign of the crosswind component.
   */
  lemma WindCorrectionSigns(baseDistance: real, windSpeed: real,
                            windCos: real, windSin: real, club: string)
    requires club in ClubFactors
    requires windSpeed > 0.0
    ensures windCos > 0.0 ==> Carry(baseDistance, 0.0, windSpeed, windCos, windSin, club) > baseDistance
    ensures windCos < 0.0 ==> Carry(baseDistance, 0.0, windSpeed, windCos, windSin, club) < baseDistance
    ensures windSin > 0.0 ==> Drift(baseDistance, 0.0, windSpeed, windCos, windSin, club) > 0.0
    ensures windSin < 0.0 ==> Drift(baseDistance, 0.0, windSpeed, windCos, windSin, club) < 0.0
  {
  }

  /**
   * For a genuine direction (cos² + sin² = 1) the wind displaces the ball by
   * the wind speed times the club's wind factor, whatever the angle, and so
   * by less than the wind speed itself.
   */
  lemma WindDisplacementIsRotationInvariant(baseDistance: real, windSpeed: real,
                                            windCos: real, windSin: real, club: string)
    requires club in ClubFactors
    requires windCos * windCos + windSin * windSin == 1.0
    ensures var along := Carry(baseDistance, 0.0, windSpeed, windCos, windSin, club) - baseDistance;
            var across := Drift(baseDistance, 0.0, windSpeed, windCos, windSin, club);
            && along * along + across * across
               == (windSpeed * ClubFactors[club].wind) * (windSpeed * ClubFactors[club].wind)
            && (windSpeed != 0.0 ==> along * along + across * across < windSpeed * windSpeed)
  {
    var wf := ClubFactors[club].wind;
    var along := Carry(baseDistance, 0.0, windSpeed, windCos, windSin, club) - baseDistance;
    var across := Drift(baseDistance, 0.0, windSpeed, windCos, windSin, club);
    var ww := (windSpeed * wf) * (windSpeed * wf);
    assert along == (windSpeed * wf) * windCos;
    assert across == (windSpeed * wf) * windSin;
    calc {
      along * along + across * across;
      ww * (windCos * windCos) + ww * (windSin * windSin);
      ww * (windCos * windCos + windSin * windSin);
      ww;
    }
    if windSpeed != 0.0 {
      FactorsAreFractions(club);
      assert wf * wf < 1.0;
      assert windSpeed * windSpeed > 0.0;
      calc {
        ww;
        (windSpeed * windSpeed) * (wf * wf);
      <
        windSpeed * windSpeed;
      }
    }
  }

  /** Driver, 100 yards, 10 mph straight tailwind (angle 0): 100.8 yards, no drift. */
  lemma DriverTailwindExample()
    ensures CalculateAdjustedShot(100.0, 0.0, 10.0, 1.0, 0.0, "Driver")
            == Adjusted(ShotResult(100.8, 0.0))
  {
  }

  /** Driver, 100 yards, 10 mph pure crosswind (angle 90): carry unchanged, 0.8 yards drift. */
  lemma DriverCrosswindExample()
    ensures CalculateAdjustedShot(100.0, 0.0, 10.0, 0.0, 1.0, "Driver")
            == Adjusted(ShotResult(100.0, 0.8))
  {
  }

  /** 7-Iron, 150 yards, 30 feet uphill, no wind: 154.752 yards. */
  lemma SevenIronUphillExample()
    ensures CalculateAdjustedShot(150.0, 30.0, 0.0, 1.0, 0.0, "7-Iron")
            == Adjusted(ShotResult(154.752, 0.0))
  {
  }

  /** A club the table does not list is reported, not defaulted. */
  lemma UnknownClubExample()
    ensures CalculateAdjustedShot(100.0, 0.0, 0.0, 1.0, 0.0, "Putter") == UnknownClub("Putter")
  {
  }
}
