/**
 The in-memory activity registry: a map from activity name to its record,
 and the two guarded transitions that edit one participant list.
 */
module Registry {
  import opened Wrappers
  import opened Http

  /** One activity record. `maxParticipants` is stored and returned but
      never compared with the participant count. */
  datatype Activity = Activity(
    description: string,
    schedule: string,
    maxParticipants: int,
    participants: seq<string>)

  type Activities = map<string, Activity>

  /** No email appears twice in a participant list. */
  predicate NoDup(s: seq<string>)
  {
    forall i, j :: 0 <= i < j < |s| ==> s[i] != s[j]
  }

  /** Every participant list of the registry is free of duplicates. */
  predicate AllNoDup(acts: Activities)
  {
    forall name :: name in acts ==> NoDup(acts[name].participants)
  }

  /** Python's `list.remove(x)`: drop the first occurrence of `x`. */
  function RemoveFirst(s: seq<string>, x: string): (r: seq<string>)
    requires x in s
    ensures |r| == |s| - 1
  {
    if s[0] == x then s[1..] else [s[0]] + RemoveFirst(s[1..], x)
  }

  /** `RemoveFirst` takes away one copy of `x` and keeps every other element. */
  lemma {:induction false} RemoveFirstMultiset(s: seq<string>, x: string)
    requires x in s
    ensures multiset(RemoveFirst(s, x)) == multiset(s) - multiset{x}
  {
    assert s == [s[0]] + s[1..];
    if s[0] != x {
      RemoveFirstMultiset(s[1..], x);
    }
  }

  /** `RemoveFirst` cuts out exactly the element at the first index holding `x`. */
  lemma {:induction false} RemoveFirstAtFirstIndex(s: seq<string>, x: string, i: nat)
    requires i < |s| && s[i] == x
    requires forall k :: 0 <= k < i ==> s[k] != x
    ensures RemoveFirst(s, x) == s[..i] + s[i + 1..]
    decreases i
  {
    if i == 0 {
      assert s[..i] + s[i + 1..] == s[1..];
    } else {
      var t := s[1..];
      assert RemoveFirst(s, x) == [s[0]] + RemoveFirst(t, x);
      assert RemoveFirst(t, x) == t[..i - 1] + t[i..] by {
        RemoveFirstAtFirstIndex(t, x, i - 1);
      }
      assert [s[0]] + (t[..i - 1] + t[i..]) == s[..i] + s[i + 1..];
    }
  }

  /** Removing an element appended after a list without it gives the list back. */
  lemma {:induction false} RemoveFirstOfAppended(s: seq<string>, x: string)
    requires x !in s
    ensures RemoveFirst(s + [x], x) == s
  {
    assert (s + [x])[..|s|] == s;
    assert forall k :: 0 <= k < |s| ==> (s + [x])[k] == s[k];
    RemoveFirstAtFirstIndex(s + [x], x, |s|);
  }

  /** Removing an element from a duplicate-free list leaves a duplicate-free
      list that no longer contains it. */
  lemma RemoveFirstNoDup(s: seq<string>, x: string)
    requires x in s && NoDup(s)
    ensures NoDup(RemoveFirst(s, x))
    ensures x !in RemoveFirst(s, x)
  {
    var i :| 0 <= i < |s| && s[i] == x;
    RemoveFirstAtFirstIndex(s, x, i);
    CutNoDup(s, i);
  }

  /** Cutting one element out of a duplicate-free list leaves a duplicate-free
      list without that element. */
  lemma CutNoDup(s: seq<string>, i: nat)
    requires i < |s| && NoDup(s)
    ensures NoDup(s[..i] + s[i + 1..])
    ensures s[i] !in s[..i] + s[i + 1..]
  {
  }

  /** The registry part of `signup_for_activity`, after authentication. */
  function SignUp(acts: Activities, name: string, email: string): (r: Result<Activities, HttpError>)
    ensures name !in acts <==> r == Err(NotFound)
    ensures r == Err(AlreadySignedUp) <==> name in acts && email in acts[name].participants
    ensures r.Ok? <==> name in acts && email !in acts[name].participants
    ensures r.Ok? ==> r.value.Keys == acts.Keys
    ensures r.Ok? ==> r.value[name].participants == acts[name].participants + [email]
    ensures r.Ok? ==> r.value[name].description == acts[name].description
    ensures r.Ok? ==> r.value[name].schedule == acts[name].schedule
    ensures r.Ok? ==> r.value[name].maxParticipants == acts[name].maxParticipants
    ensures r.Ok? ==> forall n :: n in acts && n != name ==> r.value[n] == acts[n]
  {
    if name !in acts then Err(NotFound)
    else
      var activity := acts[name];
      if email in activity.participants then Err(AlreadySignedUp)
      else Ok(acts[name := activity.(participants := activity.participants + [email])])
  }

  /** The registry part of `unregister_from_activity`, after authentication. */
  function Unregister(acts: Activities, name: string, email: string): (r: Result<Activities, HttpError>)
    ensures name !in acts <==> r == Err(NotFound)
    ensures r == Err(NotSignedUp) <==> name in acts && email !in acts[name].participants
    ensures r.Ok? <==> name in acts && email in acts[name].participants
    ensures r.Ok? ==> r.value.Keys == acts.Keys
    ensures r.Ok? ==> |r.value[name].participants| == |acts[name].participants| - 1
    ensures r.Ok? ==> multiset(r.value[name].participants)
                      == multiset(acts[name].participants) - multiset{email}
    ensures r.Ok? ==> r.value[name].description == acts[name].description
    ensures r.Ok? ==> r.value[name].schedule == acts[name].schedule
    ensures r.Ok? ==> r.value[name].maxParticipants == acts[name].maxParticipants
    ensures r.Ok? ==> forall n :: n in acts && n != name ==> r.value[n] == acts[n]
  {
    if name !in acts then Err(NotFound)
    else
      var activity := acts[name];
      if email !in activity.participants then Err(NotSignedUp)
      else
        RemoveFirstMultiset(activity.participants, email);
        Ok(acts[name := activity.(participants := RemoveFirst(activity.participants, email))])
  }

  /** A successful unregister removes the first occurrence of the email and
      nothing else from the list. */
  lemma UnregisterRemovesFirstOccurrence(acts: Activities, name: string, email: string, i: nat)
    requires name in acts
    requires i < |acts[name].participants| && acts[name].participants[i] == email
    requires forall k :: 0 <= k < i ==> acts[name].participants[k] != email
    ensures Unregister(acts, name, email).Ok?
    ensures var p := acts[name].participants;
            Unregister(acts, name, email).value[name].participants == p[..i] + p[i + 1..]
  {
    RemoveFirstAtFirstIndex(acts[name].participants, email, i);
  }

  /** Signing up an email and then unregistering it restores the registry. */
  lemma SignUpThenUnregister(acts: Activities, name: string, email: string)
    requires SignUp(acts, name, email).Ok?
    ensures Unregister(SignUp(acts, name, email).value, name, email) == Ok(acts)
  {
    var a := acts[name];
    var after := acts[name := a.(participants := a.participants + [email])];
    assert SignUp(acts, name, email) == Ok(after);
    assert Unregister(after, name, email) == Ok(after[name := a]) by {
      RemoveFirstOfAppended(a.participants, email);
    }
    assert after[name := a] == acts;
  }

  /** Unregistering an email and signing it up again keeps the same participants,
      possibly in a different order. */
  lemma UnregisterThenSignUp(acts: Activities, name: string, email: string)
    requires Unregister(acts, name, email).Ok?
    requires NoDup(acts[name].participants)
    ensures SignUp(Unregister(acts, name, email).value, name, email).Ok?
    ensures var again := SignUp(Unregister(acts, name, email).value, name, email).value;
            multiset(again[name].participants) == multiset(acts[name].participants)
  {
    RemoveFirstNoDup(acts[name].participants, email);
  }

  /** Signup keeps every participant list duplicate-free. */
  lemma SignUpPreservesNoDup(acts: Activities, name: string, email: string)
    requires AllNoDup(acts)
    requires SignUp(acts, name, email).Ok?
    ensures AllNoDup(SignUp(acts, name, email).value)
  {
  }

  /** Unregister keeps every participant list duplicate-free, and the email is
      then gone from the list. */
  lemma UnregisterPreservesNoDup(acts: Activities, name: string, email: string)
    requires AllNoDup(acts)
    requires Unregister(acts, name, email).Ok?
    ensures AllNoDup(Unregister(acts, name, email).value)
    ensures email !in Unregister(acts, name, email).value[name].participants
  {
    RemoveFirstNoDup(acts[name].participants, email);
  }

  /** Capacity is never checked: whether signup succeeds does not depend on
      `maxParticipants`. */
  lemma SignUpIgnoresCapacity(acts: Activities, name: string, email: string, cap: int)
    requires name in acts
    ensures var acts' := acts[name := acts[name].(maxParticipants := cap)];
            SignUp(acts', name, email).Ok? <==> SignUp(acts, name, email).Ok?
  {
  }

  /** An activity at or over capacity still accepts a new participant and
      ends up over capacity. */
  lemma SignUpCanExceedCapacity(acts: Activities, name: string, email: string)
    requires name in acts && email !in acts[name].participants
    requires |acts[name].participants| >= acts[name].maxParticipants
    ensures SignUp(acts, name, email).Ok?
    ensures |SignUp(acts, name, email).value[name].participants| > acts[name].maxParticipants
  {
  }
}
