/** The profile store: each profile is a document whose partition key and id are both the username. */
module ProfileStorage {
  import opened Common
  import opened Strings
  import opened Dtos
  import opened Entities
  import opened Container

  type Store = Container<ProfileEntity>

  function ToProfile(e: ProfileEntity): Profile {
    Profile(e.id, e.firstName, e.lastName, e.profilePictureId)
  }

  function ToEntity(p: Profile): (e: ProfileEntity)
    ensures ToProfile(e) == p
    ensures e.partitionKey == p.username && e.id == p.username
  {
    ProfileEntity(p.username, p.username, p.firstName, p.lastName, p.profilePictureId)
  }

  /** A document addressed by its username reads back and stores again unchanged. */
  lemma ProfileEntityRoundTrip(e: ProfileEntity)
    requires e.partitionKey == e.id
    ensures ToEntity(ToProfile(e)) == e
  {
  }

  /** The profile fields the storages require: username, first and last name not blank. */
  predicate IsComplete(p: Profile) {
    !IsNullOrWhiteSpace(p.username) && !IsNullOrWhiteSpace(p.firstName) && !IsNullOrWhiteSpace(p.lastName)
  }

  /** Every document sits in the partition of its own username, under that username, and is complete. */
  ghost predicate Placed(s: Store) {
    forall pk, id :: pk in s && id in s[pk] ==>
      s[pk][id].partitionKey == pk && s[pk][id].id == id && pk == id && IsComplete(ToProfile(s[pk][id]))
  }

  /** UpsertProfile: an incomplete profile is rejected and nothing is written. */
  function Write(s: Store, p: Profile): Transition<Result<()>, Store> {
    if !IsComplete(p) then Transition(Err(InvalidArgument), s)
    else Transition(Ok(()), Upsert(s, p.username, p.username, ToEntity(p)))
  }

  /** GetProfile: None where the store answers "not found". */
  function Get(s: Store, username: string): (r: Option<Profile>)
    ensures r.Some? <==> Contains(s, username, username)
  {
    match Read(s, username, username)
    case Some(e) => Some(ToProfile(e))
    case None => None
  }

  /** DeleteProfile: a missing profile is silently ignored. */
  function Delete(s: Store, username: string): Store {
    if Contains(s, username, username) then DeleteItem(s, username, username) else s
  }

  lemma WriteKeepsPlaced(s: Store, p: Profile)
    requires Placed(s)
    ensures Placed(Write(s, p).state)
  {
    var s': Store := Write(s, p).state;
    forall pk: string, x: string | pk in s' && x in s'[pk]
      ensures s'[pk][x].partitionKey == pk && s'[pk][x].id == x && pk == x && IsComplete(ToProfile(s'[pk][x]))
    {
      assert Read(s', pk, x) == Some(s'[pk][x]);
      if pk != p.username || x != p.username || !IsComplete(p) {
        assert Read(s, pk, x) == Some(s'[pk][x]);
      }
    }
  }

  /** UpsertProfile succeeds exactly for complete profiles; then the profile
      reads back and no other profile changes. */
  lemma WriteOutcomes(s: Store, p: Profile)
    ensures Write(s, p).result.Ok? <==> IsComplete(p)
    ensures !IsComplete(p) ==> Write(s, p) == Transition(Err(InvalidArgument), s)
    ensures IsComplete(p) ==> Get(Write(s, p).state, p.username) == Some(p)
    ensures forall u :: u != p.username ==> Get(Write(s, p).state, u) == Get(s, u)
  {
  }

  /** Under the placement invariant a profile read back has the username it was read by and is complete. */
  lemma GetReturnsAddressed(s: Store, username: string)
    requires Placed(s) && Get(s, username).Some?
    ensures Get(s, username).value.username == username
    ensures IsComplete(Get(s, username).value)
  {
  }

  /** After DeleteProfile the profile is gone, and no other profile changes. */
  lemma DeleteOutcomes(s: Store, username: string)
    ensures Get(Delete(s, username), username) == None
    ensures forall u :: u != username ==> Get(Delete(s, username), u) == Get(s, u)
    ensures Get(s, username) == None ==> Delete(s, username) == s
  {
  }

  lemma DeleteKeepsPlaced(s: Store, username: string)
    requires Placed(s)
    ensures Placed(Delete(s, username))
  {
    var s': Store := Delete(s, username);
    forall pk: string, x: string | pk in s' && x in s'[pk]
      ensures s'[pk][x].partitionKey == pk && s'[pk][x].id == x && pk == x && IsComplete(ToProfile(s'[pk][x]))
    {
      assert Read(s', pk, x) == Some(s'[pk][x]);
      assert Read(s, pk, x) == Some(s'[pk][x]);
    }
  }

  class CosmosProfileStorage {
    var container: Store

    ghost predicate Valid()
      reads this
    {
      Placed(container)
    }

    constructor()
      ensures Valid() && container == map[]
    {
      container := map[];
    }

    method UpsertProfile(profile: Profile) returns (r: Result<()>)
      requires Valid()
      modifies this
      ensures Valid()
      ensures Transition(r, container) == Write(old(container), profile)
    {
      WriteKeepsPlaced(container, profile);
      if IsNullOrWhiteSpace(profile.username) || IsNullOrWhiteSpace(profile.firstName) || IsNullOrWhiteSpace(profile.lastName) {
        return Err(InvalidArgument);
      }
      var e := ToEntity(profile);
      container := Upsert(container, e.partitionKey, e.id, e);
      r := Ok(());
    }

    method GetProfile(username: string) returns (r: Option<Profile>)
      requires Valid()
      ensures r == Get(container, username)
    {
      var entity := Read(container, username, username);
      match entity
      case Some(e) => r := Some(ToProfile(e));
      case None => r := None;
    }

    method DeleteProfile(username: string)
      requires Valid()
      modifies this
      ensures Valid()
      ensures container == Delete(old(container), username)
    {
      DeleteKeepsPlaced(container, username);
      if Contains(container, username, username) {
        container := DeleteItem(container, username, username);
      }
    }
  }
}
