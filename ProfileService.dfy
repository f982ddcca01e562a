/** The profile service: validation and existence checks in front of the profile store. */
module ProfileService {
  import opened Common
  import opened Strings
  import opened Dtos
  import opened Container
  import PS = ProfileStorage

  /** GetProfile: a blank username is rejected, a missing profile is UserNotFound. */
  function Get(s: PS.Store, username: string): Result<Profile> {
    if IsNullOrWhiteSpace(username) then Err(InvalidArgument)
    else match PS.Get(s, username)
      case Some(p) => Ok(p)
      case None => Err(UserNotFound)
  }

  /** AddProfile: validate, refuse an existing username, then upsert. */
  function Add(s: PS.Store, profile: Profile): Transition<Result<()>, PS.Store> {
    if !PS.IsComplete(profile) then Transition(Err(InvalidArgument), s)
    else if PS.Get(s, profile.username).Some? then Transition(Err(UserConflict), s)
    else PS.Write(s, profile)
  }

  /** The profile UpdateProfile builds: the username kept, everything else from the request. */
  function Updated(username: string, request: PutProfileRequest): Profile {
    Profile(username, request.firstName, request.lastName, Some(request.profilePictureId))
  }

  /** UpdateProfile: validate, require an existing profile, then upsert and return the new profile. */
  function Update(s: PS.Store, username: string, request: PutProfileRequest): Transition<Result<Profile>, PS.Store> {
    var updated := Updated(username, request);
    if IsNullOrWhiteSpace(username) || IsNullOrWhiteSpace(request.firstName) || IsNullOrWhiteSpace(request.lastName) then
      Transition(Err(InvalidArgument), s)
    else if PS.Get(s, username).None? then Transition(Err(UserNotFound), s)
    else
      var w := PS.Write(s, updated);
      match w.result
      case Ok(_) => Transition(Ok(updated), w.state)
      case Err(e) => Transition(Err(e), w.state)
  }

  /** GetProfile succeeds exactly for a stored, non-blank username, and then
      returns the profile of that user. */
  lemma GetOutcomes(s: PS.Store, username: string)
    requires PS.Placed(s)
    ensures IsNullOrWhiteSpace(username) ==> Get(s, username) == Err(InvalidArgument)
    ensures !IsNullOrWhiteSpace(username) && PS.Get(s, username).None? ==> Get(s, username) == Err(UserNotFound)
    ensures Get(s, username).Ok? ==> Get(s, username) == Ok(PS.Get(s, username).value) && Get(s, username).value.username == username
  {
    if PS.Get(s, username).Some? {
      PS.GetReturnsAddressed(s, username);
    }
  }

  /** AddProfile's outcomes: InvalidArgument for an incomplete profile,
      UserConflict for a taken username, both writing nothing; otherwise the
      profile becomes readable and no other profile changes. */
  lemma {:induction false} AddOutcomes(s: PS.Store, profile: Profile)
    ensures !PS.IsComplete(profile) ==> Add(s, profile) == Transition(Err(InvalidArgument), s)
    ensures PS.IsComplete(profile) && PS.Get(s, profile.username).Some? ==> Add(s, profile) == Transition(Err(UserConflict), s)
    ensures Add(s, profile).result.Ok? <==> PS.IsComplete(profile) && PS.Get(s, profile.username).None?
    ensures Add(s, profile).result.Ok? ==> Get(Add(s, profile).state, profile.username) == Ok(profile)
    ensures forall u :: u != profile.username ==> PS.Get(Add(s, profile).state, u) == PS.Get(s, u)
  {
    PS.WriteOutcomes(s, profile);
  }

  /** Adding the same username twice: the second attempt conflicts and changes nothing. */
  lemma {:induction false} AddTwiceConflicts(s: PS.Store, profile: Profile, again: Profile)
    requires Add(s, profile).result.Ok? && again.username == profile.username && PS.IsComplete(again)
    ensures Add(Add(s, profile).state, again) == Transition(Err(UserConflict), Add(s, profile).state)
  {
    AddOutcomes(s, profile);
  }

  /** UpdateProfile's outcomes: InvalidArgument for a blank argument and
      UserNotFound for a missing user, both writing nothing; otherwise the
      returned profile keeps the username, takes the rest from the request,
      and is what the store now holds for that user, every other profile unchanged. */
  lemma {:induction false} UpdateOutcomes(s: PS.Store, username: string, request: PutProfileRequest)
    ensures IsNullOrWhiteSpace(username) || IsNullOrWhiteSpace(request.firstName) || IsNullOrWhiteSpace(request.lastName)
      ==> Update(s, username, request) == Transition(Err(InvalidArgument), s)
    ensures (!IsNullOrWhiteSpace(username) && !IsNullOrWhiteSpace(request.firstName) && !IsNullOrWhiteSpace(request.lastName)
             && PS.Get(s, username).None?)
      ==> Update(s, username, request) == Transition(Err(UserNotFound), s)
    ensures Update(s, username, request).result.Ok? <==>
      !IsNullOrWhiteSpace(username) && !IsNullOrWhiteSpace(request.firstName) && !IsNullOrWhiteSpace(request.lastName)
      && PS.Get(s, username).Some?
    ensures Update(s, username, request).result.Ok? ==>
      && Update(s, username, request).result.value == Profile(username, request.firstName, request.lastName, Some(request.profilePictureId))
      && Get(Update(s, username, request).state, username) == Update(s, username, request).result
    ensures forall u :: u != username ==> PS.Get(Update(s, username, request).state, u) == PS.Get(s, u)
  {
    PS.WriteOutcomes(s, Updated(username, request));
  }

  /** UpdateProfile never creates a profile: whoever can be read afterwards could be read before. */
  lemma {:induction false} UpdateCreatesNoUser(s: PS.Store, username: string, request: PutProfileRequest)
    ensures forall u :: PS.Get(Update(s, username, request).state, u).Some? ==> PS.Get(s, u).Some?
  {
    UpdateOutcomes(s, username, request);
  }

  class ProfileService {
    const profileStorage: PS.CosmosProfileStorage

    ghost predicate Valid()
      reads this, profileStorage
    {
      profileStorage.Valid()
    }

    constructor(profileStorage: PS.CosmosProfileStorage)
      requires profileStorage.Valid()
      ensures Valid() && this.profileStorage == profileStorage
    {
      this.profileStorage := profileStorage;
    }

    method GetProfile(username: string) returns (r: Result<Profile>)
      requires Valid()
      ensures r == Get(profileStorage.container, username)
    {
      if IsNullOrWhiteSpace(username) {
        return Err(InvalidArgument);
      }
      var profile := profileStorage.GetProfile(username);
      match profile
      case None => r := Err(UserNotFound);
      case Some(p) => r := Ok(p);
    }

    method AddProfile(profile: Profile) returns (r: Result<()>)
      requires Valid()
      modifies profileStorage
      ensures Valid()
      ensures Transition(r, profileStorage.container) == Add(old(profileStorage.container), profile)
    {
      if IsNullOrWhiteSpace(profile.username) || IsNullOrWhiteSpace(profile.firstName) || IsNullOrWhiteSpace(profile.lastName) {
        return Err(InvalidArgument);
      }
      var existingProfile := profileStorage.GetProfile(profile.username);
      if existingProfile.Some? {
        return Err(UserConflict);
      }
      r := profileStorage.UpsertProfile(profile);
    }

    method UpdateProfile(username: string, putProfile: PutProfileRequest) returns (r: Result<Profile>)
      requires Valid()
      modifies profileStorage
      ensures Valid()
      ensures Transition(r, profileStorage.container) == Update(old(profileStorage.container), username, putProfile)
    {
      var updatedProfile := Profile(username, putProfile.firstName, putProfile.lastName, Some(putProfile.profilePictureId));
      if IsNullOrWhiteSpace(username) || IsNullOrWhiteSpace(putProfile.firstName) || IsNullOrWhiteSpace(putProfile.lastName) {
        return Err(InvalidArgument);
      }
      var oldProfile := profileStorage.GetProfile(username);
      if oldProfile.None? {
        return Err(UserNotFound);
      }
      var written := profileStorage.UpsertProfile(updatedProfile);
      match written
      case Ok(_) => r := Ok(updatedProfile);
      case Err(e) => r := Err(e);
    }
  }
}
