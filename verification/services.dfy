/**
 * The Boosth device registry: a fixed table of wristband profiles (peripheral name, GATT service
 * id, description and tagged characteristics) with lookups by name and by tag.
 */
module Services {
  import opened Wrappers

  /** WristbandCharacteristicTag: A = 0, B = 1, C = 2. */
  datatype Tag = A | B | C

  /** WristbandProfileType. */
  datatype ProfileType = BoosthKids | BoosthAdults

  datatype Characteristic = Characteristic(tag: Tag, id: string)

  datatype Profile = Profile(peripheralName: string, id: string, description: ProfileType,
                             characteristics: seq<Characteristic>)

  /** WristbandServiceException; its constructor discards the message, so only the kind remains. */
  datatype ServiceError = NotFound

  const ServiceId: string := "0000FED0-494C-4F47-4943-544543480000"
  /** Tag A: written for settings and history requests, and subscribed to for notifications. */
  const Fed1Id: string := "0000FED1-494C-4F47-4943-544543480000"
  /** Tag B: read for today's summary. */
  const Fed2Id: string := "0000FED2-494C-4F47-4943-544543480000"

  const KidsName: string := "PR102"
  const AdultsName: string := "B002"

  const KidsProfile: Profile :=
    Profile(KidsName, ServiceId, BoosthKids, [Characteristic(A, Fed1Id), Characteristic(B, Fed2Id)])
  const AdultsProfile: Profile :=
    Profile(AdultsName, ServiceId, BoosthAdults, [Characteristic(A, Fed1Id), Characteristic(B, Fed2Id)])

  /** The registry's table, in declaration order. */
  const Profiles: seq<Profile> := [KidsProfile, AdultsProfile]

  /** The first index at which a profile has this service id, or |profiles| when none has. */
  function IdIndex(profiles: seq<Profile>, id: string): (k: nat)
    ensures k <= |profiles|
    ensures k < |profiles| ==> profiles[k].id == id
    ensures forall i :: 0 <= i < k ==> profiles[i].id != id
  {
    if |profiles| == 0 then 0
    else if profiles[0].id == id then 0
    else 1 + IdIndex(profiles[1..], id)
  }

  predicate NoDuplicates(xs: seq<string>)
  {
    forall i, j :: 0 <= i < j < |xs| ==> xs[i] != xs[j]
  }

  /** `ids` is what ListOfProfileServicesIDs has collected after the first n profiles. */
  predicate Collected(profiles: seq<Profile>, n: nat, ids: seq<string>)
  {
    |ids| <= n <= |profiles| &&
    NoDuplicates(ids) &&
    (forall i :: 0 <= i < n ==> profiles[i].id in ids) &&
    (forall k :: 0 <= k < |ids| ==> k <= IdIndex(profiles, ids[k]) < n) &&
    (forall k, l :: 0 <= k < l < |ids| ==> IdIndex(profiles, ids[k]) < IdIndex(profiles, ids[l]))
  }

  /** A profile whose id is already collected adds nothing. */
  lemma CollectedSkip(profiles: seq<Profile>, n: nat, ids: seq<string>)
    requires Collected(profiles, n, ids) && n < |profiles| && profiles[n].id in ids
    ensures Collected(profiles, n + 1, ids)
  {
  }

  /** A profile with a new id adds it at the end, and that id first occurs at n. */
  lemma CollectedAppend(profiles: seq<Profile>, n: nat, ids: seq<string>)
    requires Collected(profiles, n, ids) && n < |profiles| && profiles[n].id !in ids
    ensures Collected(profiles, n + 1, ids + [profiles[n].id])
  {
    var id := profiles[n].id;
    assert IdIndex(profiles, id) == n;
    var out := ids + [id];
    forall k | 0 <= k < |out|
      ensures k <= IdIndex(profiles, out[k]) < n + 1
      ensures k < |ids| ==> out[k] == ids[k] && IdIndex(profiles, out[k]) < n
    {
      if k < |ids| { assert out[k] == ids[k]; }
    }
    forall k, l | 0 <= k < l < |out|
      ensures out[k] != out[l] && IdIndex(profiles, out[k]) < IdIndex(profiles, out[l])
    {
      if l == |ids| {
        assert out[k] == ids[k];
      } else {
        assert out[k] == ids[k] && out[l] == ids[l];
      }
    }
  }

  /**
   * ListOfProfileServicesIDs: every profile's service id exactly once, in the order of first
   * occurrence in the table.
   */
  method ListOfProfileServicesIDs(profiles: seq<Profile>) returns (ids: seq<string>)
    ensures NoDuplicates(ids)
    ensures forall i :: 0 <= i < |profiles| ==> profiles[i].id in ids
    ensures forall k :: 0 <= k < |ids| ==> IdIndex(profiles, ids[k]) < |profiles|
    ensures forall k, l :: 0 <= k < l < |ids| ==> IdIndex(profiles, ids[k]) < IdIndex(profiles, ids[l])
    ensures forall k :: 0 <= k < |ids| ==> k <= IdIndex(profiles, ids[k])
  {
    var output: seq<string> := [];
    var n := 0;
    while n < |profiles|
      invariant Collected(profiles, n, output)
    {
      var id := profiles[n].id;
      if id !in output {
        CollectedAppend(profiles, n, output);
        output := output + [id];
      } else {
        CollectedSkip(profiles, n, output);
      }
      n := n + 1;
    }
    ids := output;
  }

  /** With the built-in table the scan filter is the single shared service id. */
  method BuiltInServiceIds() returns (ids: seq<string>)
    ensures ids == [ServiceId]
  {
    ids := ListOfProfileServicesIDs(Profiles);
    assert Profiles[0].id == ServiceId;
    forall k | 0 <= k < |ids|
      ensures ids[k] == ServiceId
    {
      assert IdIndex(Profiles, ids[k]) < 2;
    }
    assert IdIndex(Profiles, ServiceId) == 0;
    assert IdIndex(Profiles, ids[|ids| - 1]) == 0;
  }

  /** GetProfileByName: the first profile carrying that peripheral name; none throws. */
  function GetProfileByName(profiles: seq<Profile>, peripheralName: string): (r: Result<Profile, ServiceError>)
    ensures r.Success? <==> exists i :: 0 <= i < |profiles| && profiles[i].peripheralName == peripheralName
    ensures r.Success? ==> exists i :: (0 <= i < |profiles| && profiles[i] == r.value &&
      r.value.peripheralName == peripheralName &&
      forall j :: 0 <= j < i ==> profiles[j].peripheralName != peripheralName)
  {
    if |profiles| == 0 then Failure(NotFound)
    else if profiles[0].peripheralName == peripheralName then Success(profiles[0])
    else
      var r := GetProfileByName(profiles[1..], peripheralName);
      if r.Success? then
        ghost var i :| 0 <= i < |profiles[1..]| && profiles[1..][i] == r.value &&
          r.value.peripheralName == peripheralName &&
          forall j :: 0 <= j < i ==> profiles[1..][j].peripheralName != peripheralName;
        assert profiles[i + 1] == r.value;
        r
      else
        assert forall i :: 1 <= i < |profiles| ==> profiles[i] == profiles[1..][i - 1];
        r
  }

  /** The first characteristic with that tag. */
  function FindCharacteristic(characteristics: seq<Characteristic>, tag: Tag): (r: Result<Characteristic, ServiceError>)
    ensures r.Success? <==> exists i :: 0 <= i < |characteristics| && characteristics[i].tag == tag
    ensures r.Success? ==> exists i :: (0 <= i < |characteristics| && characteristics[i] == r.value &&
      r.value.tag == tag && forall j :: 0 <= j < i ==> characteristics[j].tag != tag)
  {
    if |characteristics| == 0 then Failure(NotFound)
    else if characteristics[0].tag == tag then Success(characteristics[0])
    else
      var r := FindCharacteristic(characteristics[1..], tag);
      if r.Success? then
        ghost var i :| 0 <= i < |characteristics[1..]| && characteristics[1..][i] == r.value &&
          r.value.tag == tag && forall j :: 0 <= j < i ==> characteristics[1..][j].tag != tag;
        assert characteristics[i + 1] == r.value;
        r
      else
        assert forall i :: 1 <= i < |characteristics| ==> characteristics[i] == characteristics[1..][i - 1];
        r
  }

  /** GetCharacteristicByTag: looks the profile up by name (throwing when it is unknown), then its
      first characteristic with the tag (throwing when there is none). */
  function GetCharacteristicByTag(profiles: seq<Profile>, peripheralName: string, tag: Tag)
    : (r: Result<Characteristic, ServiceError>)
    ensures GetProfileByName(profiles, peripheralName).Failure? ==> r.Failure?
    ensures GetProfileByName(profiles, peripheralName).Success? ==>
      r == FindCharacteristic(GetProfileByName(profiles, peripheralName).value.characteristics, tag)
    ensures r.Success? ==> r.value.tag == tag
    ensures r.Success? ==>
      exists i :: (0 <= i < |profiles| && profiles[i].peripheralName == peripheralName &&
        r.value in profiles[i].characteristics)
  {
    var p := GetProfileByName(profiles, peripheralName);
    if p.Failure? then Failure(p.error) else FindCharacteristic(p.value.characteristics, tag)
  }

  /** The built-in table knows exactly the two Boosth names: "PR102" is the kids' profile and
      "B002" the adults'; every other name throws. */
  lemma BuiltInProfiles(peripheralName: string)
    ensures GetProfileByName(Profiles, peripheralName).Success? <==>
      peripheralName == KidsName || peripheralName == AdultsName
    ensures peripheralName == KidsName ==>
      GetProfileByName(Profiles, peripheralName) == Success(KidsProfile) &&
      KidsProfile.description == BoosthKids
    ensures peripheralName == AdultsName ==>
      GetProfileByName(Profiles, peripheralName) == Success(AdultsProfile) &&
      AdultsProfile.description == BoosthAdults
  {
    assert Profiles[0] == KidsProfile && Profiles[1] == AdultsProfile;
    assert KidsName != AdultsName by { assert KidsName[0] != AdultsName[0]; }
  }

  /** For either Boosth name, tag A is the FED1 characteristic, tag B the FED2 characteristic and
      tag C is missing; an unknown name throws for every tag. */
  lemma BuiltInCharacteristics(peripheralName: string, tag: Tag)
    ensures peripheralName == KidsName || peripheralName == AdultsName ==>
      GetCharacteristicByTag(Profiles, peripheralName, tag) ==
        match tag
        case A => Success(Characteristic(A, Fed1Id))
        case B => Success(Characteristic(B, Fed2Id))
        case C => Failure(NotFound)
    ensures peripheralName != KidsName && peripheralName != AdultsName ==>
      GetCharacteristicByTag(Profiles, peripheralName, tag).Failure?
  {
    BuiltInProfiles(peripheralName);
    var cs := [Characteristic(A, Fed1Id), Characteristic(B, Fed2Id)];
    if peripheralName == KidsName || peripheralName == AdultsName {
      assert GetProfileByName(Profiles, peripheralName).value.characteristics == cs;
      assert cs[0].tag == A && cs[1].tag == B;
      match tag {
        case A => assert FindCharacteristic(cs, A) == Success(cs[0]);
        case B => assert FindCharacteristic(cs, B) == Success(cs[1]);
        case C =>
          assert FindCharacteristic(cs[2..], C) == Failure(NotFound);
          assert FindCharacteristic(cs[1..], C) == Failure(NotFound);
      }
    }
  }
}
