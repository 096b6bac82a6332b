/** Property insertion (`addProperty`): a fixed INSERT statement with fourteen
    placeholders, whose column list and value list must pair each value with
    the column of the same name. */
module PropertyInsert {
  import opened Values
  import opened Statements

  /** The fields `addProperty` reads from its argument. Prices are integers in
      minor currency units, as stored. */
  datatype Property = Property(
    ownerId: int,
    title: string,
    description: string,
    thumbnailPhotoUrl: string,
    coverPhotoUrl: string,
    costPerNight: int,
    street: string,
    city: string,
    province: string,
    postCode: string,
    country: string,
    parkingSpaces: int,
    numberOfBathrooms: int,
    numberOfBedrooms: int)

  /** The columns of the `properties` table that the statement fills. */
  datatype Column =
    | OwnerId | Title | Description | ThumbnailPhotoUrl | CoverPhotoUrl | CostPerNight
    | ParkingSpaces | NumberOfBathrooms | NumberOfBedrooms
    | Country | Street | City | Province | PostCode

  /** The column list of the INSERT statement, in its written order. */
  const InsertPropertyColumns: seq<Column> :=
    [OwnerId, Title, Description, ThumbnailPhotoUrl, CoverPhotoUrl, CostPerNight,
     ParkingSpaces, NumberOfBathrooms, NumberOfBedrooms,
     Country, Street, City, Province, PostCode]

  /** `INSERT INTO properties (<the column list>) VALUES ($1, ..., $14)
      RETURNING * ;` */
  const InsertPropertyText: seq<Piece> :=
    [ Sql("INSERT INTO properties (owner_id, title, description, thumbnail_photo_url, "
          + "cover_photo_url, cost_per_night, parking_spaces, number_of_bathrooms, "
          + "number_of_bedrooms, country, street, city, province, post_code) VALUES ("),
      Tuple(1, 14),
      Sql(") RETURNING * ;") ]

  /** The value that belongs in column `c`, chosen by name. */
  function FieldOf(p: Property, c: Column): Param {
    match c
    case OwnerId => PNum(p.ownerId)
    case Title => PText(p.title)
    case Description => PText(p.description)
    case ThumbnailPhotoUrl => PText(p.thumbnailPhotoUrl)
    case CoverPhotoUrl => PText(p.coverPhotoUrl)
    case CostPerNight => PNum(p.costPerNight)
    case Street => PText(p.street)
    case City => PText(p.city)
    case Province => PText(p.province)
    case PostCode => PText(p.postCode)
    case Country => PText(p.country)
    case ParkingSpaces => PNum(p.parkingSpaces)
    case NumberOfBathrooms => PNum(p.numberOfBathrooms)
    case NumberOfBedrooms => PNum(p.numberOfBedrooms)
  }

  /** Where column `c` stands in the column list, and so which placeholder
      (one more than the index) fills it. */
  function ColumnIndex(c: Column): (i: nat)
    ensures i < |InsertPropertyColumns| && InsertPropertyColumns[i] == c
  {
    match c
    case OwnerId => 0
    case Title => 1
    case Description => 2
    case ThumbnailPhotoUrl => 3
    case CoverPhotoUrl => 4
    case CostPerNight => 5
    case ParkingSpaces => 6
    case NumberOfBathrooms => 7
    case NumberOfBedrooms => 8
    case Country => 9
    case Street => 10
    case City => 11
    case Province => 12
    case PostCode => 13
  }

  /** The column list names each column exactly once and has one entry per
      placeholder of the VALUES list. */
  lemma ColumnsListedOnce()
    ensures Slots(InsertPropertyText) == Positions(|InsertPropertyColumns|)
    ensures forall i :: 0 <= i < |InsertPropertyColumns| ==> ColumnIndex(InsertPropertyColumns[i]) == i
  {
    ValuesTextSlots(InsertPropertyText[0].text, 14, InsertPropertyText[2].text);
  }

  /** The parameter list of the INSERT, as written: one value per column,
      position i carrying the field named by column i of the column list, for
      all fourteen positions. */
  function AddPropertyParams(p: Property): (r: seq<Param>)
    ensures |r| == |InsertPropertyColumns|
    ensures forall i :: 0 <= i < |r| ==> r[i] == FieldOf(p, InsertPropertyColumns[i])
  {
    [ PNum(p.ownerId),
      PText(p.title),
      PText(p.description),
      PText(p.thumbnailPhotoUrl),
      PText(p.coverPhotoUrl),
      PNum(p.costPerNight),
      PNum(p.parkingSpaces),
      PNum(p.numberOfBathrooms),
      PNum(p.numberOfBedrooms),
      PText(p.country),
      PText(p.street),
      PText(p.city),
      PText(p.province),
      PText(p.postCode) ]
  }

  /** The text cites exactly the values bound: `$1 .. $14`, one per value. */
  lemma AddPropertyAligned(p: Property)
    ensures TextAligned(InsertPropertyText, AddPropertyParams(p))
  {
    ColumnsListedOnce();
  }

  /** Each column receives the field of its own name. */
  lemma InsertFillsColumnsByName(p: Property, c: Column)
    ensures AddPropertyParams(p)[ColumnIndex(c)] == FieldOf(p, c)
  {
  }

  /** The value a VALUES tuple laid out by the column list puts in column `c`. */
  function Stored(values: seq<Param>, c: Column): Param
    requires |values| == |InsertPropertyColumns|
  {
    values[ColumnIndex(c)]
  }

  /** The property a VALUES tuple describes, reading position i as column i
      of the column list, so that each field comes from the column of its
      name; `None` when a position holds a value of the wrong kind. */
  function PropertyFromValues(values: seq<Param>): (r: Option<Property>)
    requires |values| == |InsertPropertyColumns|
    ensures r.Some? ==> forall c: Column :: Stored(values, c) == FieldOf(r.value, c)
  {
    if && values[0].PNum? && values[1].PText? && values[2].PText? && values[3].PText?
       && values[4].PText? && values[5].PNum? && values[6].PNum? && values[7].PNum?
       && values[8].PNum? && values[9].PText? && values[10].PText? && values[11].PText?
       && values[12].PText? && values[13].PText?
    then
      Some(Property(
        ownerId := values[0].n, title := values[1].s, description := values[2].s,
        thumbnailPhotoUrl := values[3].s, coverPhotoUrl := values[4].s,
        costPerNight := values[5].n, parkingSpaces := values[6].n,
        numberOfBathrooms := values[7].n, numberOfBedrooms := values[8].n,
        country := values[9].s, street := values[10].s, city := values[11].s,
        province := values[12].s, postCode := values[13].s))
    else None
  }

  /** Decoding the bound VALUES tuple through the column list yields the
      property that was added: no field is lost or lands in another field's
      column, and the price keeps the unit it was given in. */
  lemma AddPropertyRoundTrip(p: Property)
    ensures PropertyFromValues(AddPropertyParams(p)) == Some(p)
  {
    var values := AddPropertyParams(p);
    assert values == [ PNum(p.ownerId), PText(p.title), PText(p.description),
      PText(p.thumbnailPhotoUrl), PText(p.coverPhotoUrl), PNum(p.costPerNight),
      PNum(p.parkingSpaces), PNum(p.numberOfBathrooms), PNum(p.numberOfBedrooms),
      PText(p.country), PText(p.street), PText(p.city), PText(p.province), PText(p.postCode) ];
  }

  /** Two properties that bind the same values are the same property. */
  lemma AddPropertyParamsInjective(p: Property, q: Property)
    requires AddPropertyParams(p) == AddPropertyParams(q)
    ensures p == q
  {
    AddPropertyRoundTrip(p);
    AddPropertyRoundTrip(q);
  }
}
