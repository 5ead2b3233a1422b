/** The land-use decision tree: a building's precomputed attributes are
    mapped to one of three labels by nested threshold tests. */
module LandUse {

  /** The attributes the tree reads, under the column names
      Motorway, Closest, PrimarySecondary, frontage_ratio, Service,
      Compactness, Area, Corners and ERI. The three flags are the truth
      values of their columns. */
  datatype Row = Row(
    motorway: bool,
    closest: real,
    primarySecondary: bool,
    frontageRatio: real,
    service: bool,
    compactness: real,
    area: real,
    corners: int,
    eri: real)

  datatype Label = Residential | Mixed | NonResidential {
    /** The text written to the prediction column. */
    function Name(): (s: string)
      ensures s in {"Residential", "Mixed", "Non Residential"}
    {
      match this
      case Residential => "Residential"
      case Mixed => "Mixed"
      case NonResidential => "Non Residential"
    }
  }

  /** The return statements of the tree, named by the node that decides them. */
  datatype Leaf =
    | MotorwayBuffer         // node A
    | WideAngle              // node C
    | PrimaryLowFrontage     // node F, frontage < 0.2
    | PrimaryFrontage        // node F, otherwise
    | LowFrontage            // node I
    | ServiceLowFrontage     // node L, frontage < 0.2
    | ServiceFrontage        // node L, otherwise
    | LooseIrregular         // node P, some test holds
    | LooseRegular           // node P, otherwise
    | WideFrontageIrregular  // node T, some test holds
    | WideFrontageRegular    // node T, otherwise
    | NarrowIrregular        // node W, some test holds
    | NarrowRegular          // node W, otherwise
  {
    function Outcome(): Label {
      match this
      case MotorwayBuffer => NonResidential
      case WideAngle => Residential
      case PrimaryLowFrontage => NonResidential
      case PrimaryFrontage => Mixed
      case LowFrontage => NonResidential
      case ServiceLowFrontage => NonResidential
      case ServiceFrontage => Mixed
      case LooseIrregular => NonResidential
      case LooseRegular => Residential
      case WideFrontageIrregular => Mixed
      case WideFrontageRegular => Residential
      case NarrowIrregular => NonResidential
      case NarrowRegular => Residential
    }
  }

  /** The tree itself: which return statement a row reaches. Node L's
      `frontage_ratio < 0.2` repeats node I's test on a path where node I
      already failed, so its first branch is never reached. */
  function Decide(row: Row): (leaf: Leaf)
    ensures leaf != ServiceLowFrontage
  {
    if row.motorway then MotorwayBuffer
    else if row.closest > 20.0 then WideAngle
    else if row.primarySecondary then
      if row.frontageRatio < 0.2 then PrimaryLowFrontage else PrimaryFrontage
    else if row.frontageRatio < 0.2 then LowFrontage
    else if row.service then
      if row.frontageRatio < 0.2 then ServiceLowFrontage else ServiceFrontage
    else if row.compactness < 0.62 then
      if row.area > 200.0 || row.corners > 4 || row.eri < 0.9 then LooseIrregular else LooseRegular
    else if row.frontageRatio > 0.5 then
      if row.corners > 4 || row.eri < 0.9 then WideFrontageIrregular else WideFrontageRegular
    else
      if row.area > 200.0 || row.corners > 4 || row.eri < 0.9 then NarrowIrregular else NarrowRegular
  }

  /** `classify_land_use`: the label of the leaf the row reaches. 'Mixed'
      needs no motorway buffer, Closest at most 20 and a frontage ratio of
      at least 0.2. */
  function Classify(row: Row): (use: Label)
    ensures use == Mixed ==> !row.motorway && row.closest <= 20.0 && row.frontageRatio >= 0.2
  {
    Decide(row).Outcome()
  }

  /** A motorway buffer decides alone, whatever the other fields hold. */
  lemma MotorwayIsNonResidential(row: Row)
    requires row.motorway
    ensures Classify(row) == NonResidential
  {
  }

  lemma WideAngleIsResidential(row: Row)
    requires !row.motorway && row.closest > 20.0
    ensures Classify(row) == Residential
  {
  }

  /** Below 0.2 frontage the label no longer depends on PrimarySecondary,
      Service or the shape fields. */
  lemma LowFrontageIsNonResidential(row: Row)
    requires !row.motorway && row.closest <= 20.0 && row.frontageRatio < 0.2
    ensures Classify(row) == NonResidential
  {
  }

  lemma PrimaryWithFrontageIsMixed(row: Row)
    requires !row.motorway && row.closest <= 20.0 && row.primarySecondary
    requires row.frontageRatio >= 0.2
    ensures Classify(row) == Mixed
  {
  }

  lemma ServiceWithFrontageIsMixed(row: Row)
    requires !row.motorway && row.closest <= 20.0 && !row.primarySecondary && row.service
    requires row.frontageRatio >= 0.2
    ensures Classify(row) == Mixed
  {
  }

  /** Without PrimarySecondary and Service, more than four corners or an
      elongation ratio below 0.9 rule out 'Residential' on every branch. */
  lemma IrregularIsNeverResidential(row: Row)
    requires !row.motorway && row.closest <= 20.0 && !row.primarySecondary && !row.service
    requires row.corners > 4 || row.eri < 0.9
    ensures Classify(row) != Residential
  {
  }

  /** 'Residential' is reached only on the wide-angle leaf or on a regular
      shape with neither PrimarySecondary nor Service. */
  lemma ResidentialPaths(row: Row)
    requires Classify(row) == Residential
    ensures !row.motorway
    ensures row.closest > 20.0 || (!row.primarySecondary && !row.service
      && row.frontageRatio >= 0.2 && row.corners <= 4 && row.eri >= 0.9)
  {
  }

  /** The three labels are written as three different texts. */
  lemma NamesAreDistinct(a: Label, b: Label)
    requires a != b
    ensures a.Name() != b.Name()
  {
  }
}
