/** The building dashboard: occupancy counts of the apartment list and its dropdown entries. */
module Dashboard {
  import Seqs

  datatype Apartment = Apartment(key: nat, name: string, occupied: bool)

  /** A dropdown entry: the apartment's key and, as the shown value, its name. */
  datatype DropdownItem = DropdownItem(key: nat, value: string)

  const Apartments: seq<Apartment> := [
    Apartment(1, "1C09", true),
    Apartment(2, "1C12", false),
    Apartment(3, "2A11", true),
    Apartment(4, "2A03", false),
    Apartment(5, "2E07", true),
    Apartment(6, "3C16", true)
  ]

  predicate IsOccupied(a: Apartment)
  {
    a.occupied
  }

  predicate IsVacant(a: Apartment)
  {
    !a.occupied
  }

  /** `apartments.filter(a => a.occupied).length`. */
  function OccupiedCount(apartments: seq<Apartment>): (n: nat)
    ensures n <= |apartments|
  {
    |Seqs.Filter(apartments, IsOccupied)|
  }

  /** `totalCount - occupiedCount`. */
  function UnoccupiedCount(apartments: seq<Apartment>): (n: int)
    ensures 0 <= n <= |apartments|
  {
    |apartments| - OccupiedCount(apartments)
  }

  /** The unoccupied count is the number of unoccupied apartments, so the two counts add up to the total. */
  lemma CountsAddUp(apartments: seq<Apartment>)
    ensures UnoccupiedCount(apartments) == |Seqs.Filter(apartments, IsVacant)|
    ensures OccupiedCount(apartments) + UnoccupiedCount(apartments) == |apartments|
    ensures UnoccupiedCount(apartments) >= 0
  {
    Seqs.FilterSplit(apartments, IsOccupied, IsVacant);
  }

  /** For the building's list: 4 occupied, 2 unoccupied. */
  lemma BuildingCounts()
    ensures OccupiedCount(Apartments) == 4 && UnoccupiedCount(Apartments) == 2
  {
    var s := Apartments;
    assert s[5..][1..] == [];
    assert s[4..][1..] == s[5..];
    assert s[3..][1..] == s[4..];
    assert s[2..][1..] == s[3..];
    assert s[1..][1..] == s[2..];
    assert |Seqs.Filter(s[5..], IsOccupied)| == 1;
    assert |Seqs.Filter(s[4..], IsOccupied)| == 2;
    assert |Seqs.Filter(s[3..], IsOccupied)| == 2;
    assert |Seqs.Filter(s[2..], IsOccupied)| == 3;
    assert |Seqs.Filter(s[1..], IsOccupied)| == 3;
  }

  /** `dropdownData`: one entry per apartment, in the same order, key to key and name to value. */
  function DropdownData(apartments: seq<Apartment>): (r: seq<DropdownItem>)
    ensures |r| == |apartments|
    ensures forall i :: 0 <= i < |r| ==> r[i].key == apartments[i].key && r[i].value == apartments[i].name
  {
    Seqs.Map(apartments, (a: Apartment) => DropdownItem(a.key, a.name))
  }
}
