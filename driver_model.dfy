/**
 * The lifecycle records the driver endpoints write: movements, placements, weights,
 * transfers and waste transfer notes, and the enumerations they use.
 * The shipped `models/driver.py` does not declare these records, so their columns are the
 * ones `api/driver.py` reads and writes. Nor does it declare the enumerations `WeightSource` and
 * `DestinationType`: their members are left open here, and a result that depends on them says
 * what it assumes.
 */
module DriverModel {
  import opened Wrappers
  import Text

  datatype MovementType = DeliveryEmpty | RelocationEmpty | CollectionFull | ReturnEmpty

  /** An append-only log entry: one lifecycle command applied to one skip. */
  datatype Movement = Movement(
    id: string,
    skipId: string,
    mtype: MovementType,
    fromZoneId: Option<string>,
    toZoneId: Option<string>,
    when: int,
    driverName: Option<string>,
    vehicleReg: Option<string>,
    note: Option<string>)

  /** Where a skip stands: open while `removedAt` is `None`. */
  datatype Placement = Placement(id: string, skipId: string, zoneId: string, placedAt: int, removedAt: Option<int>)

  /** A member of `WeightSource`, known by its name. */
  datatype WeightSource = WeightSource(name: string)

  /** A member of `DestinationType`, known by its name. */
  datatype DestinationType = DestinationType(name: string)

  /** The weight source a collection falls back to (`WeightSource.WEIGHBRIDGE`). */
  const Weighbridge: WeightSource := WeightSource("WEIGHBRIDGE")

  /** The destination type a collection falls back to (`DestinationType.RECYCLING`). */
  const Recycling: DestinationType := DestinationType("RECYCLING")

  /** The weighing of a collection; `net` is always set. */
  datatype Weight = Weight(movementId: string, source: WeightSource, grossKg: Option<real>, tareKg: Option<real>, netKg: real)

  /** Where the collected waste went. */
  datatype Transfer = Transfer(
    id: string,
    movementId: string,
    siteId: string,
    commodityId: string,
    destinationType: DestinationType,
    destinationName: string,
    destinationAddress: Option<string>)

  /** The regulatory note issued for a transfer. Every column may be absent in stored rows. */
  datatype WasteTransferNote = WasteTransferNote(
    id: string,
    transferId: string,
    description: Option<string>,
    ewcCode: Option<string>,
    quantityKg: Option<real>,
    producerName: Option<string>,
    carrierName: Option<string>,
    destinationName: Option<string>,
    createdAt: Option<int>)

  /** A member of an enumeration: its name, the text of its value, and the member itself. */
  datatype EnumMember<E> = EnumMember(name: string, value: string, member: E)

  /**
   * The members of the two enumerations, in declaration order. Their declaration is not part of
   * this model, so the lists are left open: nothing is assumed about them.
   */
  const WeightSources: seq<EnumMember<WeightSource>>

  const DestinationTypes: seq<EnumMember<DestinationType>>

  /** No member has an empty name or an empty value, so the empty text names none. */
  predicate NoBlankMember<E>(members: seq<EnumMember<E>>) {
    forall i :: 0 <= i < |members| ==> members[i].name != "" && members[i].value != ""
  }

  /** `m.name.lower() == s or str(m.value).lower() == s`. */
  predicate Names<E>(m: EnumMember<E>, s: string) {
    Text.Lower(m.name) == s || Text.Lower(m.value) == s
  }

  /** The first member, in order, whose lower-cased name or value equals `s`. */
  function FindMember<E>(members: seq<EnumMember<E>>, s: string): (r: Option<E>)
    ensures r.Some? <==> exists i :: 0 <= i < |members| && Names(members[i], s)
    ensures r.Some? ==> exists i :: 0 <= i < |members| && Names(members[i], s) && members[i].member == r.value && (forall j :: 0 <= j < i ==> !Names(members[j], s))
  {
    if members == [] then None
    else if Names(members[0], s) then Some(members[0].member)
    else
      var r := FindMember(members[1..], s);
      assert forall i :: 1 <= i < |members| ==> members[1..][i - 1] == members[i];
      if r.Some? then
        ghost var k :| 0 <= k < |members[1..]| && Names(members[1..][k], s) && members[1..][k].member == r.value
          && forall j :: 0 <= j < k ==> !Names(members[1..][j], s);
        assert Names(members[k + 1], s) && members[k + 1].member == r.value
          && forall j :: 0 <= j < k + 1 ==> !Names(members[j], s);
        r
      else r
  }

  /** A value whose stripped text `u` names no member takes the default. */
  lemma ParseEnumNotFound<E>(members: seq<EnumMember<E>>, v: string, u: string, default: E)
    requires Text.Strip(v) == u && FindMember(members, Text.Lower(u)) == None
    ensures ParseEnum(members, Some(v), default) == default
  {
  }

  /** No member named `s`: nothing is found. */
  lemma FindMemberAbsent<E>(members: seq<EnumMember<E>>, s: string)
    requires forall i :: 0 <= i < |members| ==> !Names(members[i], s)
    ensures FindMember(members, s) == None
  {
  }

  /**
   * `parse_enum`: the first member whose name or value matches the stripped, lower-cased text,
   * else `default`. A missing value gives `default`.
   */
  function ParseEnum<E>(members: seq<EnumMember<E>>, value: Option<string>, default: E): (r: E)
    ensures value.None? ==> r == default
    ensures value.Some? && (forall i :: 0 <= i < |members| ==> !Names(members[i], Text.Lower(Text.Strip(value.value)))) ==> r == default
    ensures value.Some? && (exists i :: 0 <= i < |members| && Names(members[i], Text.Lower(Text.Strip(value.value)))) ==>
      exists i :: 0 <= i < |members| && Names(members[i], Text.Lower(Text.Strip(value.value))) && members[i].member == r
    {
    if value.None? then default
    else FindMember(members, Text.Lower(Text.Strip(value.value))).GetOr(default)
  }
}
