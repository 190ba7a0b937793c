/** `KikClient.is_group_jid`: classifying a JID by the domain it mentions. */
module Jid {
  import opened Bytes

  const TALK_DOMAIN := "@talk.kik.com"
  const GROUPS_DOMAIN := "@groups.kik.com"

  /** Raised for a JID that mentions neither domain. */
  datatype JidError = NotAValidJid

  /** `sub` starts at index `i` of `s`. */
  predicate OccursAt(sub: string, s: string, i: nat)
  {
    i + |sub| <= |s| && s[i..i + |sub|] == sub
  }

  /** Python's `sub in s`, searching from the front. */
  function Contains(s: string, sub: string): (r: bool)
    ensures r <==> exists i: nat :: OccursAt(sub, s, i)
    decreases |s|
  {
    if |s| < |sub| then
      assert forall i: nat :: !OccursAt(sub, s, i);
      false
    else if s[..|sub|] == sub then
      assert OccursAt(sub, s, 0);
      true
    else
      var r := Contains(s[1..], sub);
      assert forall i: nat | OccursAt(sub, s[1..], i) :: OccursAt(sub, s, i + 1) by {
        forall i: nat | OccursAt(sub, s[1..], i) ensures OccursAt(sub, s, i + 1) {
          assert s[1..][i..i + |sub|] == s[i + 1..i + 1 + |sub|];
        }
      }
      assert forall i: nat | OccursAt(sub, s, i) && i > 0 :: OccursAt(sub, s[1..], i - 1) by {
        forall i: nat | OccursAt(sub, s, i) && i > 0 ensures OccursAt(sub, s[1..], i - 1) {
          assert s[1..][i - 1..i - 1 + |sub|] == s[i..i + |sub|];
        }
      }
      r
  }

  /**
   * False for a JID mentioning the talk domain (checked first, so even when it also
   * mentions the groups domain), true for one mentioning only the groups domain, and
   * an error for one mentioning neither.
   */
  function IsGroupJid(jid: string): (r: Result<bool, JidError>)
    ensures r == Success(false) <==> exists i: nat :: OccursAt(TALK_DOMAIN, jid, i)
    ensures r == Success(true) <==>
      && (forall i: nat :: !OccursAt(TALK_DOMAIN, jid, i))
      && (exists i: nat :: OccursAt(GROUPS_DOMAIN, jid, i))
    ensures r.Failure? <==>
      && (forall i: nat :: !OccursAt(TALK_DOMAIN, jid, i))
      && (forall i: nat :: !OccursAt(GROUPS_DOMAIN, jid, i))
  {
    if Contains(jid, TALK_DOMAIN) then Success(false)
    else if Contains(jid, GROUPS_DOMAIN) then Success(true)
    else Failure(NotAValidJid)
  }
}
