/** The stadium registry: a constant, ordered table of the 30 major-league parks with their
    outfield dimensions (feet), park factor and altitude (feet), and its two accessors. */
module Stadiums {
  import opened Optionals

  /** One registry entry; every key of the table is present. */
  datatype Stadium = Stadium(
    name: string,
    team: string,
    city: string,
    state: string,
    leftField: real,
    leftCenter: real,
    centerField: real,
    rightCenter: real,
    rightField: real,
    parkFactor: real,
    altitude: real)
  {
    /** The entry seen as a stadium dictionary in which every key is present. */
    function Info(): (i: StadiumInfo)
      ensures i.LeftField() == leftField && i.LeftCenter() == leftCenter
      ensures i.CenterField() == centerField
      ensures i.RightCenter() == rightCenter && i.RightField() == rightField
      ensures i.ParkFactor() == parkFactor
    {
      StadiumInfo(Some(leftField), Some(leftCenter), Some(centerField),
                  Some(rightCenter), Some(rightField), Some(parkFactor))
    }
  }

  /** A stadium dictionary as its readers see it: each key may be absent, and readers fall back
      to the defaults of `dict.get` (330/370/400/370/330 ft, park factor 1.0). */
  datatype StadiumInfo = StadiumInfo(
    leftField: Option<real>,
    leftCenter: Option<real>,
    centerField: Option<real>,
    rightCenter: Option<real>,
    rightField: Option<real>,
    parkFactor: Option<real>)
  {
    function LeftField(): real { leftField.GetOr(330.0) }
    function LeftCenter(): real { leftCenter.GetOr(370.0) }
    function CenterField(): real { centerField.GetOr(400.0) }
    function RightCenter(): real { rightCenter.GetOr(370.0) }
    function RightField(): real { rightField.GetOr(330.0) }
    function ParkFactor(): real { parkFactor.GetOr(1.0) }
  }

  /** `STADIUM_DATA`, in the table's insertion order. */
  const Registry: seq<Stadium> := [
      Stadium("Yankee Stadium", "NYY", "New York", "NY", 318.0, 399.0, 408.0, 385.0, 314.0, 0.95, 0.0),
      Stadium("Fenway Park", "BOS", "Boston", "MA", 310.0, 379.0, 390.0, 420.0, 302.0, 1.08, 0.0),
      Stadium("Rogers Centre", "TOR", "Toronto", "ON", 328.0, 375.0, 400.0, 375.0, 328.0, 1.02, 0.0),
      Stadium("Tropicana Field", "TB", "St. Petersburg", "FL", 315.0, 370.0, 404.0, 370.0, 322.0, 0.92, 0.0),
      Stadium("Oriole Park at Camden Yards", "BAL", "Baltimore", "MD", 333.0, 364.0, 400.0, 373.0, 318.0, 1.05, 0.0),
      Stadium("Guaranteed Rate Field", "CWS", "Chicago", "IL", 330.0, 375.0, 400.0, 375.0, 335.0, 1.03, 0.0),
      Stadium("Progressive Field", "CLE", "Cleveland", "OH", 325.0, 370.0, 400.0, 375.0, 325.0, 0.98, 0.0),
      Stadium("Comerica Park", "DET", "Detroit", "MI", 345.0, 370.0, 420.0, 365.0, 330.0, 0.96, 0.0),
      Stadium("Kauffman Stadium", "KC", "Kansas City", "MO", 330.0, 387.0, 410.0, 387.0, 330.0, 0.97, 0.0),
      Stadium("Target Field", "MIN", "Minneapolis", "MN", 339.0, 377.0, 404.0, 367.0, 328.0, 0.99, 0.0),
      Stadium("Minute Maid Park", "HOU", "Houston", "TX", 315.0, 362.0, 409.0, 373.0, 326.0, 1.04, 0.0),
      Stadium("Angel Stadium", "LAA", "Anaheim", "CA", 330.0, 382.0, 400.0, 365.0, 330.0, 0.98, 0.0),
      Stadium("Oakland Coliseum", "OAK", "Oakland", "CA", 330.0, 362.0, 400.0, 362.0, 330.0, 0.92, 0.0),
      Stadium("T-Mobile Park", "SEA", "Seattle", "WA", 331.0, 390.0, 401.0, 387.0, 326.0, 0.90, 0.0),
      Stadium("Rangers Ballpark", "TEX", "Arlington", "TX", 332.0, 390.0, 400.0, 377.0, 325.0, 1.06, 0.0),
      Stadium("Truist Park", "ATL", "Atlanta", "GA", 335.0, 380.0, 400.0, 375.0, 325.0, 1.01, 0.0),
      Stadium("loanDepot park", "MIA", "Miami", "FL", 340.0, 384.0, 407.0, 392.0, 335.0, 0.94, 0.0),
      Stadium("Citi Field", "NYM", "New York", "NY", 335.0, 378.0, 408.0, 415.0, 330.0, 0.93, 0.0),
      Stadium("Citizens Bank Park", "PHI", "Philadelphia", "PA", 329.0, 374.0, 401.0, 369.0, 330.0, 1.05, 0.0),
      Stadium("Nationals Park", "WSH", "Washington", "DC", 336.0, 377.0, 402.0, 370.0, 335.0, 0.99, 0.0),
      Stadium("Wrigley Field", "CHC", "Chicago", "IL", 355.0, 368.0, 400.0, 368.0, 353.0, 1.02, 0.0),
      Stadium("Great American Ball Park", "CIN", "Cincinnati", "OH", 328.0, 379.0, 404.0, 370.0, 325.0, 1.10, 0.0),
      Stadium("American Family Field", "MIL", "Milwaukee", "WI", 344.0, 370.0, 400.0, 374.0, 345.0, 1.00, 0.0),
      Stadium("PNC Park", "PIT", "Pittsburgh", "PA", 325.0, 389.0, 399.0, 375.0, 320.0, 0.96, 0.0),
      Stadium("Busch Stadium", "STL", "St. Louis", "MO", 336.0, 375.0, 400.0, 375.0, 335.0, 0.98, 0.0),
      Stadium("Chase Field", "ARI", "Phoenix", "AZ", 330.0, 374.0, 407.0, 374.0, 335.0, 1.05, 0.0),
      Stadium("Coors Field", "COL", "Denver", "CO", 347.0, 390.0, 415.0, 375.0, 350.0, 1.30, 5280.0),
      Stadium("Dodger Stadium", "LAD", "Los Angeles", "CA", 330.0, 368.0, 395.0, 368.0, 330.0, 0.97, 0.0),
      Stadium("Petco Park", "SD", "San Diego", "CA", 334.0, 378.0, 396.0, 387.0, 322.0, 0.88, 0.0),
      Stadium("Oracle Park", "SF", "San Francisco", "CA", 339.0, 364.0, 399.0, 421.0, 309.0, 0.89, 0.0)

    ]

  /** `get_stadium_names`: the registered names in table order. */
  function StadiumNames(): (r: seq<string>)
    ensures |r| == |Registry| == 30
    ensures forall i :: 0 <= i < |r| ==> r[i] == Registry[i].name
    ensures forall i, j :: 0 <= i < j < |r| ==> r[i] != r[j]
  {
    NamesDistinct();
    seq(|Registry|, i requires 0 <= i < |Registry| => Registry[i].name)
  }

  /** The first entry of `entries` carrying `name`, if any. */
  function Find(name: string, entries: seq<Stadium>): (r: Option<Stadium>)
    ensures r.Some? <==> exists i :: 0 <= i < |entries| && entries[i].name == name
    ensures r.Some? ==> r.value in entries && r.value.name == name
  {
    if |entries| == 0 then None
    else if entries[0].name == name then Some(entries[0])
    else
      var r := Find(name, entries[1..]);
      assert forall i :: 1 <= i < |entries| ==> entries[i] == entries[1..][i - 1];
      r
  }

  /** `get_stadium_info`: the registered entry for a known name, `None` for any other. */
  function StadiumLookup(name: string): (r: Option<Stadium>)
    ensures r.Some? <==> name in StadiumNames()
    ensures forall i :: 0 <= i < |Registry| && Registry[i].name == name ==> r == Some(Registry[i])
  {
    NamesDistinct();
    var r := Find(name, Registry);
    assert r.Some? <==> name in StadiumNames() by {
      var names := StadiumNames();
      if r.Some? {
        var i :| 0 <= i < |Registry| && Registry[i].name == name;
        assert names[i] == name;
      }
      if name in names {
        var i :| 0 <= i < |names| && names[i] == name;
        assert Registry[i].name == name;
      }
    }
    r
  }

  lemma NamesDistinct()
    ensures forall i, j :: 0 <= i < j < |Registry| ==> Registry[i].name != Registry[j].name
  {
  }

  predicate WellFormed(s: Stadium) {
    && 0.88 <= s.parkFactor <= 1.30
    && s.leftField > 0.0 && s.leftCenter > 0.0 && s.centerField > 0.0
    && s.rightCenter > 0.0 && s.rightField > 0.0
    && s.centerField > s.leftField && s.centerField > s.rightField
  }

  /** The data invariants of the table: park factors in [0.88, 1.30], positive distances, and
      center field deeper than both foul lines. */
  lemma RegistryInvariants()
    ensures forall s :: s in Registry ==> WellFormed(s)
  {
    assert forall i :: 0 <= i < |Registry| ==> WellFormed(Registry[i]);
  }

  /** Coors Field (5280 ft) is the only entry with a non-zero altitude. */
  lemma OnlyCoorsFieldIsElevated()
    ensures forall s :: s in Registry ==> (s.altitude != 0.0 <==> s.name == "Coors Field")
    ensures StadiumLookup("Coors Field").Some?
    ensures StadiumLookup("Coors Field").value.altitude == 5280.0
  {
    assert forall i :: 0 <= i < |Registry| ==>
      (Registry[i].altitude != 0.0 <==> Registry[i].name == "Coors Field");
    assert Registry[26].name == "Coors Field";
  }
}
