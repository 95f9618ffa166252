/** The metro-station projection shared by the V2 and V4 servers: each feature of the
    station collection becomes a flat record of four fields. */
module Metro {
  import opened Json
  import opened Documents

  datatype MetroStation = MetroStation(nom_statio: Value, commune: Value, ligne: Value, coordinates: Value)

  /** The record `features.map(station => ...)` builds for one feature. */
  function StationOf(f: MetroFeature): MetroStation {
    MetroStation(f.properties.nom_statio, f.properties.commune, f.properties.ligne, f.coordinates)
  }

  /** The projection keeps the length and the order of the collection, and each record
      carries its feature's name, commune, line and coordinates. */
  function Project(features: seq<MetroFeature>): (r: seq<MetroStation>)
    ensures |r| == |features|
    ensures forall i :: 0 <= i < |features| ==>
              && r[i].nom_statio == features[i].properties.nom_statio
              && r[i].commune == features[i].properties.commune
              && r[i].ligne == features[i].properties.ligne
              && r[i].coordinates == features[i].coordinates
    decreases |features|
  {
    if |features| == 0 then []
    else [StationOf(features[0])] + Project(features[1..])
  }
}
