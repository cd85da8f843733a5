/**
 * internal/data/permissions.go: the permission codes a user holds, such as
 * "movies:read", and the membership test on them.
 */
module Permissions {

  /** `data.Permissions`: a list of permission codes. */
  type Permissions = seq<string>

  /** `Permissions.Include(code)`: a scan with early return on the first exact match. */
  method Include(p: Permissions, code: string) returns (included: bool)
    ensures included <==> exists i :: 0 <= i < |p| && p[i] == code
  {
    for i := 0 to |p|
      invariant forall k :: 0 <= k < i ==> p[k] != code
    {
      if code == p[i] {
        return true;
      }
    }
    return false;
  }

  /** An empty list includes nothing. */
  lemma EmptyIncludesNothing(p: Permissions, code: string)
    requires |p| == 0
    ensures code !in p
  {
  }

  /** The distinct codes a list holds. */
  function Codes(p: Permissions): set<string>
  {
    set c | c in p
  }

  /** Membership depends only on which codes occur, not on their order or repetition. */
  lemma IncludeIgnoresOrderAndDuplicates(p: Permissions, q: Permissions, code: string)
    requires Codes(p) == Codes(q)
    ensures code in p <==> code in q
  {
    assert code in p <==> code in Codes(p);
    assert code in q <==> code in Codes(q);
  }

  /** Adding a code `c` adds exactly `c` to what is included. */
  lemma IncludeExtended(p: Permissions, c: string, code: string)
    ensures code in p + [c] <==> code in p || c == code
  {
  }
}
