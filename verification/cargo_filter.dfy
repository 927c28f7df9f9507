/**
  Cargo search filters: a registry of specification providers looked up by
  key, the two providers (delivery status, vehicle type), and the builder
  that ANDs the specification of every supplied search field onto an
  unrestricted one. A JPA `Specification<Cargo>` is modelled as the
  predicate it denotes on a cargo; the SQL `IN` over the stored enum column
  becomes membership of the constant's identifier in the value list.
 */
module CargoFilter {
  import opened Wrappers
  import opened DeliveryStatuses
  import opened Entities

  type Specification = Cargo -> bool

  const CargoStatusKey: string := "status"
  const VehicleTypeKey: string := "type"

  /** `Specification.where(null)`: no restriction. */
  function Unrestricted(): Specification {
    (c: Cargo) => true
  }

  function And(a: Specification, b: Specification): Specification {
    (c: Cargo) => a(c) && b(c)
  }

  /**
    `status IN (params)` on the cargo's own status column: an "any of" over
    the values, so a cargo with a status matches when some value is its
    constant's identifier, and a cargo without a status never matches.
   */
  function StatusIn(params: seq<string>): Specification
  {
    (c: Cargo) => c.status.Some? && EnumName(c.status.value) in params
  }

  /**
    Inner join on the cargo's vehicle, then `type IN (params)` on the
    vehicle: a cargo without a vehicle (or a vehicle without a type) never
    matches, and one with a typed vehicle matches when some value is the
    type's identifier.
   */
  function VehicleTypeIn(params: seq<string>): Specification
  {
    (c: Cargo) => c.vehicle.Some? && c.vehicle.value.vehicleType.Some?
         && VehicleTypeName(c.vehicle.value.vehicleType.value) in params
  }

  datatype Provider = CargoStatusProvider | VehicleTypeProvider

  /** `getKey` of each provider. */
  function Key(p: Provider): string {
    match p
    case CargoStatusProvider => CargoStatusKey
    case VehicleTypeProvider => VehicleTypeKey
  }

  /** `getSpecification` of each provider. */
  function GetSpecification(p: Provider, params: seq<string>): Specification {
    match p
    case CargoStatusProvider => StatusIn(params)
    case VehicleTypeProvider => VehicleTypeIn(params)
  }

  /** The providers the application registers. */
  const Registered: seq<Provider> := [CargoStatusProvider, VehicleTypeProvider]

  const NoProviderPrefix: string := "Can't find correct specification provider for key: "

  /** Different providers have different keys, so the first provider with a key is the only one. */
  lemma KeyIdentifiesProvider(p: Provider, q: Provider)
    ensures Key(p) == Key(q) <==> p == q
  {
  }

  /**
    `getSpecificationProvider`: the first provider, in registration order,
    whose key equals `key` exactly, or the `NoSuchElementException` raised
    when there is none. By `KeyIdentifiesProvider`, a registered provider
    with the key is the first one.
   */
  function GetSpecificationProvider(providers: seq<Provider>, key: string): (r: Result<Provider, string>)
    ensures r.Success? <==> exists p :: p in providers && Key(p) == key
    ensures r.Success? ==> r.value in providers && Key(r.value) == key
    ensures r.Failure? ==> r.error == NoProviderPrefix + key
  {
    if |providers| == 0 then Failure(NoProviderPrefix + key)
    else if Key(providers[0]) == key then Success(providers[0])
    else
      var r := GetSpecificationProvider(providers[1..], key);
      assert forall p :: p in providers <==> p == providers[0] || p in providers[1..];
      r
  }

  /** Exactly the keys "status" and "type" resolve among the registered providers; matching is case-sensitive. */
  lemma RegisteredKeys(key: string)
    ensures GetSpecificationProvider(Registered, key).Success? <==> key == CargoStatusKey || key == VehicleTypeKey
    ensures GetSpecificationProvider(Registered, CargoStatusKey) == Success(CargoStatusProvider)
    ensures GetSpecificationProvider(Registered, VehicleTypeKey) == Success(VehicleTypeProvider)
    ensures GetSpecificationProvider(Registered, "Status") == Failure(NoProviderPrefix + "Status")
  {
    assert Key(Registered[0]) == CargoStatusKey;
    assert Key(Registered[1]) == VehicleTypeKey;
    assert "Status"[0] != CargoStatusKey[0];
  }

  /** CargoSearchRequestDto: each value array may be null or empty. */
  datatype SearchRequest = SearchRequest(vehicleTypes: Option<seq<string>>, statuses: Option<seq<string>>)

  /** One search field: the provider key it is looked up under and its value array. */
  datatype Field = Field(key: string, values: Option<seq<string>>)

  /** A field constrains the search only when its array is non-null and non-empty. */
  predicate Supplied(values: Option<seq<string>>) {
    values.Some? && |values.value| > 0
  }

  /**
    `getCargoSpecification`: for a supplied field, AND the provider's
    specification onto `spec` (a failed provider lookup propagates); an
    absent field leaves `spec` as it is.
   */
  function GetCargoSpecification(providers: seq<Provider>, values: Option<seq<string>>, spec: Specification, key: string)
    : (r: Result<Specification, string>)
    ensures r.Success? <==> Resolves(providers, Field(key, values))
    ensures r.Success? ==> forall c :: r.value(c) <==> spec(c) && FieldHolds(providers, Field(key, values), c)
    ensures r.Failure? ==> r.error == NoProviderPrefix + key
  {
    if Supplied(values) then
      match GetSpecificationProvider(providers, key)
      case Failure(e) => Failure(e)
      case Success(p) => Success(And(spec, GetSpecification(p, values.value)))
    else Success(spec)
  }

  /** The builder's successive `getCargoSpecification` calls over `fields`, in order. */
  function ApplyFields(providers: seq<Provider>, fields: seq<Field>, spec: Specification): Result<Specification, string>
    decreases |fields|
  {
    if |fields| == 0 then Success(spec)
    else
      match GetCargoSpecification(providers, fields[0].values, spec, fields[0].key)
      case Failure(e) => Failure(e)
      case Success(s) => ApplyFields(providers, fields[1..], s)
  }

  /** The fields `build` applies, in its order: status, then type. */
  function SearchFields(req: SearchRequest): seq<Field> {
    [Field(CargoStatusKey, req.statuses), Field(VehicleTypeKey, req.vehicleTypes)]
  }

  /** `build`: start unrestricted and apply the status field, then the type field. */
  function Build(providers: seq<Provider>, req: SearchRequest): (r: Result<Specification, string>)
    ensures r.Success? <==>
      && Resolves(providers, Field(CargoStatusKey, req.statuses))
      && Resolves(providers, Field(VehicleTypeKey, req.vehicleTypes))
    ensures r.Success? ==> forall c :: r.value(c) <==>
      && FieldHolds(providers, Field(CargoStatusKey, req.statuses), c)
      && FieldHolds(providers, Field(VehicleTypeKey, req.vehicleTypes), c)
    ensures r.Failure? ==>
      r.error == NoProviderPrefix + (if Resolves(providers, Field(CargoStatusKey, req.statuses)) then VehicleTypeKey else CargoStatusKey)
  {
    var fs := SearchFields(req);
    ApplyFieldsMeaning(providers, fs, Unrestricted());
    assert forall f :: f in fs <==> f == fs[0] || f == fs[1];
    ApplyFields(providers, fs, Unrestricted())
  }

  /** A field imposes no lookup, or its key resolves. */
  predicate Resolves(providers: seq<Provider>, f: Field) {
    !Supplied(f.values) || GetSpecificationProvider(providers, f.key).Success?
  }

  /** A field imposes no constraint, or the cargo satisfies its provider's specification. */
  predicate FieldHolds(providers: seq<Provider>, f: Field, c: Cargo) {
    !Supplied(f.values)
    || (GetSpecificationProvider(providers, f.key).Success?
        && GetSpecification(GetSpecificationProvider(providers, f.key).value, f.values.value)(c))
  }

  /**
    Meaning of the builder: it succeeds exactly when every supplied field's
    key resolves; the result is then the AND of the starting specification
    and every supplied field's filter; a failure names an unresolved key.
   */
  lemma {:induction false} ApplyFieldsMeaning(providers: seq<Provider>, fields: seq<Field>, spec: Specification)
    ensures ApplyFields(providers, fields, spec).Success? <==> forall f :: f in fields ==> Resolves(providers, f)
    ensures ApplyFields(providers, fields, spec).Success? ==>
      forall c :: ApplyFields(providers, fields, spec).value(c)
                  <==> spec(c) && forall f :: f in fields ==> FieldHolds(providers, f, c)
    ensures ApplyFields(providers, fields, spec).Failure? ==>
      exists f :: f in fields && !Resolves(providers, f)
                  && ApplyFields(providers, fields, spec).error == NoProviderPrefix + f.key
    decreases |fields|
  {
    if |fields| != 0 {
      var f0 := fields[0];
      assert fields == [f0] + fields[1..];
      assert forall f :: f in fields <==> f == f0 || f in fields[1..];
      match GetCargoSpecification(providers, f0.values, spec, f0.key)
      case Failure(e) =>
        assert !Resolves(providers, f0);
        assert e == NoProviderPrefix + f0.key;
      case Success(s) =>
        assert Resolves(providers, f0);
        assert forall c :: s(c) <==> spec(c) && FieldHolds(providers, f0, c);
        ApplyFieldsMeaning(providers, fields[1..], s);
        assert ApplyFields(providers, fields, spec) == ApplyFields(providers, fields[1..], s);
    }
  }

  /** A request with no supplied field matches every cargo, whatever providers are registered. */
  lemma EmptyRequestMatchesAll(providers: seq<Provider>, req: SearchRequest, c: Cargo)
    requires !Supplied(req.statuses) && !Supplied(req.vehicleTypes)
    ensures Build(providers, req).Success?
    ensures Build(providers, req).value(c)
  {
    ApplyFieldsMeaning(providers, SearchFields(req), Unrestricted());
  }

  /**
    With the registered providers, `build` always succeeds and matches a
    cargo exactly when it passes the status filter (if statuses are given)
    and the vehicle-type filter (if types are given).
   */
  lemma BuildMeaning(req: SearchRequest)
    ensures Build(Registered, req).Success?
    ensures forall c :: Build(Registered, req).value(c) <==>
      && (Supplied(req.statuses) ==> StatusIn(req.statuses.value)(c))
      && (Supplied(req.vehicleTypes) ==> VehicleTypeIn(req.vehicleTypes.value)(c))
  {
    RegisteredKeys(CargoStatusKey);
    ApplyFieldsMeaning(Registered, SearchFields(req), Unrestricted());
    var fs := SearchFields(req);
    assert forall f :: f in fs <==> f == fs[0] || f == fs[1];
    forall c
      ensures FieldHolds(Registered, fs[0], c) <==> (Supplied(req.statuses) ==> StatusIn(req.statuses.value)(c))
      ensures FieldHolds(Registered, fs[1], c) <==> (Supplied(req.vehicleTypes) ==> VehicleTypeIn(req.vehicleTypes.value)(c))
    {
    }
  }

  /** Requesting a field whose key no provider has fails the build rather than matching nothing. */
  lemma UnknownKeyFailsBuild(providers: seq<Provider>, req: SearchRequest)
    requires Supplied(req.vehicleTypes)
    requires forall j :: 0 <= j < |providers| ==> Key(providers[j]) != VehicleTypeKey
    ensures Build(providers, req).Failure?
  {
    ApplyFieldsMeaning(providers, SearchFields(req), Unrestricted());
    assert SearchFields(req)[1] in SearchFields(req);
  }

  /**
    Field order does not matter: any two orderings of the same fields both
    succeed or both fail, and on success match the same cargos.
   */
  lemma FieldOrderIrrelevant(providers: seq<Provider>, fields1: seq<Field>, fields2: seq<Field>, c: Cargo)
    requires forall f :: f in fields1 <==> f in fields2
    ensures ApplyFields(providers, fields1, Unrestricted()).Success?
        <==> ApplyFields(providers, fields2, Unrestricted()).Success?
    ensures ApplyFields(providers, fields1, Unrestricted()).Success? ==>
      (ApplyFields(providers, fields1, Unrestricted()).value(c)
       <==> ApplyFields(providers, fields2, Unrestricted()).value(c))
  {
    ApplyFieldsMeaning(providers, fields1, Unrestricted());
    ApplyFieldsMeaning(providers, fields2, Unrestricted());
  }

  /** Applying the type field before the status field gives the same filter as `build`. */
  lemma BuildCommutes(providers: seq<Provider>, req: SearchRequest, c: Cargo)
    ensures var swapped := ApplyFields(providers, [Field(VehicleTypeKey, req.vehicleTypes), Field(CargoStatusKey, req.statuses)], Unrestricted());
      && (Build(providers, req).Success? <==> swapped.Success?)
      && (swapped.Success? ==> (Build(providers, req).value(c) <==> swapped.value(c)))
  {
    FieldOrderIrrelevant(providers, SearchFields(req),
      [Field(VehicleTypeKey, req.vehicleTypes), Field(CargoStatusKey, req.statuses)], c);
  }

  /**
    The status filter is an "any of": values combine by OR, duplicates and
    order are irrelevant, and only the cargo's status is inspected.
   */
  lemma StatusFilterProperties(a: seq<string>, b: seq<string>, c: Cargo, c': Cargo)
    ensures StatusIn(a + b)(c) <==> StatusIn(a)(c) || StatusIn(b)(c)
    ensures (forall v :: v in a <==> v in b) ==> (StatusIn(a)(c) <==> StatusIn(b)(c))
    ensures c.status == c'.status ==> (StatusIn(a)(c) <==> StatusIn(a)(c'))
  {
  }

  /**
    The vehicle-type filter excludes cargos without a vehicle, combines its
    values by OR, and ignores the cargo's status and description.
   */
  lemma VehicleTypeFilterProperties(a: seq<string>, b: seq<string>, c: Cargo, c': Cargo)
    ensures c.vehicle.None? ==> !VehicleTypeIn(a)(c)
    ensures VehicleTypeIn(a + b)(c) <==> VehicleTypeIn(a)(c) || VehicleTypeIn(b)(c)
    ensures c.vehicle == c'.vehicle ==> (VehicleTypeIn(a)(c) <==> VehicleTypeIn(a)(c'))
  {
  }
}
