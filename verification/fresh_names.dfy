/**
 * Identifiers the source obtains from a generator (`nanoid()` for session
 * tokens, the database's ObjectId for inserted documents). The model only
 * relies on such a generator returning a non-empty string that is not in
 * use yet; this module shows one always exists.
 */
module FreshNames {

  /** An upper bound on the lengths of the strings in `names`. */
  ghost function MaxLength(names: set<string>): (m: nat)
    ensures forall s :: s in names ==> |s| <= m
    decreases names
  {
    if names == {} then 0
    else
      var s :| s in names;
      var rest := MaxLength(names - {s});
      if |s| <= rest then rest else |s|
  }

  /** A non-empty string that is not in `names`: longer than all of them. */
  ghost function Unused(names: set<string>): (s: string)
    ensures s !in names && s != ""
  {
    seq(MaxLength(names) + 1, _ => 'x')
  }

  /** The generator itself: some non-empty string not in `used`. */
  method NewName(used: set<string>) returns (name: string)
    ensures name !in used && name != ""
  {
    ghost var longer := Unused(used);
    name :| name !in used && name != "";
  }
}
