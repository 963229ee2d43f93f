/**
 * The fixed list of profiles the page browses, the lookup of the profile
 * under the cursor, and the rule that advances the cursor.
 */
module Catalog {

  import opened Options

  /** A browsable person. Only identity and the short card fields are kept. */
  datatype Profile = Profile(id: nat, name: string, age: nat, location: string, verified: bool)

  /** The three hard-coded profiles, in browsing order. */
  const PROFILES: seq<Profile> := [
    Profile(1, "Anna", 26, "Moscow", true),
    Profile(2, "Dmitry", 28, "Saint Petersburg", true),
    Profile(3, "Maria", 24, "Moscow", true)
  ]

  /** `profiles[i]`: the profile at the cursor, undefined past the end of the list. */
  function ProfileAt(i: nat): (r: Option<Profile>)
    ensures r.Some? <==> i < |PROFILES|
    ensures r.Some? ==> r.value == PROFILES[i] && r.value.id == i + 1
  {
    if i < |PROFILES| then Some(PROFILES[i]) else None
  }

  /**
   * The cursor after a swipe settles. The test reads `captured`, the cursor
   * the settle callback saw when the swipe was made; the increment is
   * applied to `latest`, the cursor as it is when the callback runs.
   */
  function NextIndex(captured: nat, latest: nat): (r: nat)
    ensures r == 0 || r == latest + 1
    ensures r == 0 <==> captured >= |PROFILES| - 1
    ensures captured == latest < |PROFILES| ==> r == (latest + 1) % |PROFILES|
  {
    if captured < |PROFILES| - 1 then latest + 1 else 0
  }

}
