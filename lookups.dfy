/**
 * The foreign-key lookups of the screens: a linear `find` by id over a loaded
 * collection, rendered as a label, with the literal 'Unknown' when nothing has
 * the id. The guarded forms first answer 'Unknown' when the fetched value is
 * not an array at all.
 */
module Lookups {
  import opened Entities
  import opened Views

  /** `getTenantName` of the minimal screens: the name of the first tenant with the id. */
  function TenantName(tenants: seq<Tenant>, id: int): (name: string)
    ensures (forall i :: 0 <= i < |tenants| ==> tenants[i].tenantId != id) ==> name == "Unknown"
    ensures (exists i :: 0 <= i < |tenants| && tenants[i].tenantId == id) ==>
      exists i :: 0 <= i < |tenants| && tenants[i].tenantId == id
        && (forall j :: 0 <= j < i ==> tenants[j].tenantId != id) && name == tenants[i].name
  {
    LabelOf(tenants, (t: Tenant) => t.tenantId == id, (t: Tenant) => t.name)
  }

  /** `getTenantName` of the full screens: 'Unknown' when the tenants are not an array. */
  function FetchedTenantName(tenants: Fetched<Tenant>, id: int): (name: string)
    ensures tenants.NotArray? ==> name == "Unknown"
    ensures tenants.Array? ==> name == TenantName(tenants.items, id)
  {
    if tenants.NotArray? then "Unknown" else TenantName(tenants.items, id)
  }

  /** `getTenantNameWithContact`: "name (contact)" of the first tenant with the id. */
  function TenantNameWithContact(tenants: seq<Tenant>, id: int): (shown: string)
    ensures (forall i :: 0 <= i < |tenants| ==> tenants[i].tenantId != id) ==> shown == "Unknown"
    ensures (exists i :: 0 <= i < |tenants| && tenants[i].tenantId == id) ==>
      exists i :: 0 <= i < |tenants| && tenants[i].tenantId == id
        && (forall j :: 0 <= j < i ==> tenants[j].tenantId != id)
        && shown == tenants[i].name + " (" + tenants[i].contactInfo + ")"
  {
    LabelOf(tenants, (t: Tenant) => t.tenantId == id, (t: Tenant) => t.name + " (" + t.contactInfo + ")")
  }

  /** `getUnitInfo` of the minimal screen: "unitNumber - building" of the first unit with the id. */
  function UnitInfo(units: seq<Unit>, id: int): (info: string)
    ensures (forall i :: 0 <= i < |units| ==> units[i].unitId != id) ==> info == "Unknown"
    ensures (exists i :: 0 <= i < |units| && units[i].unitId == id) ==>
      exists i :: 0 <= i < |units| && units[i].unitId == id
        && (forall j :: 0 <= j < i ==> units[j].unitId != id)
        && info == units[i].unitNumber + " - " + units[i].building
  {
    LabelOf(units, (u: Unit) => u.unitId == id, (u: Unit) => u.unitNumber + " - " + u.building)
  }

  /** `getUnitInfo` of the full screen: 'Unknown' when the units are not an array. */
  function FetchedUnitInfo(units: Fetched<Unit>, id: int): (info: string)
    ensures units.NotArray? ==> info == "Unknown"
    ensures units.Array? ==> info == UnitInfo(units.items, id)
  {
    if units.NotArray? then "Unknown" else UnitInfo(units.items, id)
  }

  /** The first tenant with the id decides the name, whatever follows it. */
  lemma FirstTenantWins(before: seq<Tenant>, t: Tenant, after: seq<Tenant>)
    requires forall i :: 0 <= i < |before| ==> before[i].tenantId != t.tenantId
    ensures TenantName(before + [t] + after, t.tenantId) == t.name
  {
    var s := before + [t] + after;
    var p := (x: Tenant) => x.tenantId == t.tenantId;
    forall j | 0 <= j < |before|
      ensures !p(s[j])
    {
      assert s[j] == before[j];
    }
    assert s[|before|] == t;
    FindIndexFirst(s, p, |before|);
  }
}
