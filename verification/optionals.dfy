/** The `Address` / `Residence` / `Person` classes and the optional chain
    `person.residence?.address?.buildingNumber`. The classes only hold optional
    stored properties, so they are modelled as immutable records. */
module Optionals {
  import opened Wrappers
  import Decimal

  datatype Address = Address(
    buildingNumber: Option<string>,
    streetName: Option<string>,
    apartmentNumber: Option<string>)

  datatype Residence = Residence(address: Option<Address>)

  datatype Person = Person(residence: Option<Residence>)

  /** `person.residence?.address?.buildingNumber`. */
  function BuildingNumber(person: Person): (r: Option<string>)
    ensures r.Some? <==>
      && person.residence.Some?
      && person.residence.value.address.Some?
      && person.residence.value.address.value.buildingNumber.Some?
    ensures r.Some? ==> r == person.residence.value.address.value.buildingNumber
  {
    person.residence
      .Then((res: Residence) => res.address)
      .Then((a: Address) => a.buildingNumber)
  }

  /** The chain continued into a number: `?.buildingNumber?.toInt()` in Swift 1.2,
      or `Int(addressNumber)` inside the `if let` in Swift 2. */
  function AddressNumber(person: Person): (r: Option<int>)
    ensures r.Some? ==> BuildingNumber(person).Some?
    ensures BuildingNumber(person).Some? ==> r == Decimal.Parse(BuildingNumber(person).value)
    ensures BuildingNumber(person).None? ==> r.None?
  {
    BuildingNumber(person).Then(Decimal.Parse)
  }

  /** Whenever every link is present and the building number is a run of
      digits whose value fits in `Int`, the chain yields that value. */
  lemma AddressNumberOfDigits(person: Person, digits: string)
    requires person.residence.Some? && person.residence.value.address.Some?
    requires person.residence.value.address.value.buildingNumber == Some(digits)
    requires |digits| >= 1 && Decimal.AllDigits(digits) && Decimal.InRange(Decimal.DigitsValue(digits))
    ensures AddressNumber(person) == Some(Decimal.DigitsValue(digits))
  {
  }

  /** The person the playground builds: a residence whose address has building
      number "123" and street "Main St.", and no apartment number. */
  function SamplePerson(): Person {
    Person(Some(Residence(Some(Address(Some("123"), Some("Main St."), None)))))
  }

  /** With that setup the chain succeeds with "123", and the number is 123. */
  lemma SampleChain()
    ensures BuildingNumber(SamplePerson()) == Some("123")
    ensures AddressNumber(SamplePerson()) == Some(123)
  {
    assert Decimal.AllDigits("123");
    assert Decimal.DigitsValue("1") == 1;
    assert "123"[..2] == "12" && "12"[..1] == "1";
  }
}
