/**
 The per-user profile index (profile_manager.py, lines 84-127): the file
 `profiles/<user>.xlsx` holds the user's profile names, in creation order,
 duplicates included. Listing reads it, creating appends to it, deleting
 removes every entry equal to a name. None of these touches a record table.
 */
module Profiles {
  import opened Wrappers
  import opened Storage

  /** `load_profiles(username)`: the stored names, or none for an empty
      username or a missing index file. */
  function LoadProfiles(disk: Disk, user: string): (names: seq<string>)
    ensures user == "" || IndexPath(user) !in disk.indexes ==> names == []
    ensures user != "" && IndexPath(user) in disk.indexes ==> names == disk.indexes[IndexPath(user)]
  {
    if user != "" && IndexPath(user) in disk.indexes then disk.indexes[IndexPath(user)] else []
  }

  /** Why creating a profile was refused ("Please enter a profile name."). */
  datatype CreateError = EmptyName

  /** The persistence part of `create_new_profile`: with a non-empty name, the
      index file (or a new, empty one) gets the name appended and is written
      back. Unlike listing, it does not check the username. */
  function CreateProfile(disk: Disk, user: string, name: string): (r: Result<Disk, CreateError>)
    ensures r.Failure? <==> name == ""
    ensures r.Success? ==> r.value.tables == disk.tables
    ensures r.Success? ==> IndexPath(user) in r.value.indexes
    ensures r.Success? ==> forall p :: p != IndexPath(user) ==>
              (p in r.value.indexes <==> p in disk.indexes)
              && (p in disk.indexes ==> r.value.indexes[p] == disk.indexes[p])
  {
    if name == "" then Failure(EmptyName)
    else
      var path := IndexPath(user);
      var names := if path in disk.indexes then disk.indexes[path] else [];
      Success(disk.(indexes := disk.indexes[path := names + [name]]))
  }

  /** `df[df['Profile Name'] != name]`: the names other than `name`, in order. */
  function RemoveAll(names: seq<string>, name: string): (r: seq<string>)
    ensures name !in r
    ensures forall x :: x != name ==> multiset(r)[x] == multiset(names)[x]
    ensures |r| <= |names|
  {
    if |names| == 0 then []
    else
      var rest := RemoveAll(names[1..], name);
      assert names == [names[0]] + names[1..];
      if names[0] == name then rest else [names[0]] + rest
  }

  /** Why deleting did nothing ("Profile file not found."). */
  datatype DeleteError = IndexMissing

  /** `delete_profile(username, name)`: rewrites the index without any entry
      equal to `name`; a missing index file is reported and nothing is written. */
  function DeleteProfile(disk: Disk, user: string, name: string): (r: Result<Disk, DeleteError>)
    ensures r.Failure? <==> IndexPath(user) !in disk.indexes
    ensures r.Success? ==> r.value.tables == disk.tables
    ensures r.Success? ==> r.value.indexes.Keys == disk.indexes.Keys
    ensures r.Success? ==> forall p :: p in disk.indexes && p != IndexPath(user) ==>
              r.value.indexes[p] == disk.indexes[p]
  {
    var path := IndexPath(user);
    if path !in disk.indexes then Failure(IndexMissing)
    else Success(disk.(indexes := disk.indexes[path := RemoveAll(disk.indexes[path], name)]))
  }

  // ---------------------------------------------------------------------------
  // Properties

  /** Removing distributes over concatenation: order is kept. */
  lemma {:induction false} RemoveAllAppend(a: seq<string>, b: seq<string>, name: string)
    ensures RemoveAll(a + b, name) == RemoveAll(a, name) + RemoveAll(b, name)
    decreases |a|
  {
    if |a| > 0 {
      assert (a + b)[1..] == a[1..] + b;
      RemoveAllAppend(a[1..], b, name);
    } else {
      assert a + b == b;
    }
  }

  /** Removing a name that is absent changes nothing. */
  lemma {:induction false} RemoveAllAbsent(names: seq<string>, name: string)
    requires name !in names
    ensures RemoveAll(names, name) == names
    decreases |names|
  {
    if |names| > 0 {
      RemoveAllAbsent(names[1..], name);
      assert [names[0]] + names[1..] == names;
    }
  }

  /** Creating a profile with a non-empty name lists it last, after all names
      listed before, even when it was already there. */
  lemma CreateThenLoad(disk: Disk, user: string, name: string)
    requires user != "" && name != ""
    ensures CreateProfile(disk, user, name).Success?
    ensures LoadProfiles(CreateProfile(disk, user, name).value, user) == LoadProfiles(disk, user) + [name]
  {
  }

  /** Creating with an empty name leaves every file as it was. */
  lemma CreateEmptyNameNoChange(disk: Disk, user: string)
    ensures CreateProfile(disk, user, "") == Failure(EmptyName)
  {
  }

  /** After deleting, the listing holds no entry equal to the name and keeps
      the other names, with their multiplicities, in their original order. */
  lemma DeleteThenLoad(disk: Disk, user: string, name: string)
    requires user != "" && IndexPath(user) in disk.indexes
    ensures DeleteProfile(disk, user, name).Success?
    ensures var after := LoadProfiles(DeleteProfile(disk, user, name).value, user);
            var before := LoadProfiles(disk, user);
            && after == RemoveAll(before, name)
            && name !in after
            && (forall x :: x != name ==> multiset(after)[x] == multiset(before)[x])
  {
  }

  /** Deleting every copy means a second delete changes nothing more. */
  lemma DeleteIdempotent(disk: Disk, user: string, name: string)
    requires DeleteProfile(disk, user, name).Success?
    ensures DeleteProfile(DeleteProfile(disk, user, name).value, user, name)
            == DeleteProfile(disk, user, name)
  {
    var once := DeleteProfile(disk, user, name).value;
    RemoveAllAbsent(once.indexes[IndexPath(user)], name);
    assert once.indexes[IndexPath(user) := once.indexes[IndexPath(user)]] == once.indexes;
  }

  /** Creating then deleting the same name lists what deleting alone lists:
      the new entry and all older copies go. */
  lemma CreateThenDelete(disk: Disk, user: string, name: string)
    requires user != "" && name != ""
    ensures var created := CreateProfile(disk, user, name).value;
            LoadProfiles(DeleteProfile(created, user, name).value, user)
            == RemoveAll(LoadProfiles(disk, user), name)
  {
    var names := LoadProfiles(disk, user);
    RemoveAllAppend(names, [name], name);
    assert RemoveAll([name], name) == [];
  }
}
