/**
  Expiring verification codes in one map that is swept only now and then, against the whole history of
  registrations and deletions. Times are nanoseconds of the monotone clock.
 */
module VerificationCodes {
  import opened Wrappers

  const MAX_SIZE := 10
  const VALID_SECONDS := 600
  const SECOND := 1_000_000_000

  datatype Code = Code(code: string, time: int)

  /** Whole seconds since the code was registered, the fraction dropped. */
  function Elapsed(c: Code, now: int): int {
    if now >= c.time then (now - c.time) / SECOND else -((c.time - now) / SECOND)
  }

  predicate Expired(c: Code, now: int) {
    Elapsed(c, now) >= VALID_SECONDS
  }

  type Pairs = map<string, Code>

  function Swept(pairs: Pairs, now: int): Pairs {
    map k | k in pairs && !Expired(pairs[k], now) :: pairs[k]
  }

  function Registered(pairs: Pairs, id: string, code: Code, sweepAt: int): Pairs {
    var grown := pairs[id := code];
    if |grown| > MAX_SIZE then Swept(grown, sweepAt) else grown
  }

  predicate Accepts(pairs: Pairs, id: string, code: string, now: int) {
    id in pairs && !Expired(pairs[id], now) && code == pairs[id].code
  }

  class Codes {
    var pairs: Pairs

    constructor ()
      ensures pairs == map[]
    {
      pairs := map[];
    }

    /** The clock is read again for the sweep. */
    method Register(key: string, code: string, purpose: string, now: int, sweepAt: int)
      modifies this
      ensures pairs == Registered(old(pairs), purpose + key, Code(code, now), sweepAt)
    {
      pairs := pairs[purpose + key := Code(code, now)];
      if |pairs| > MAX_SIZE {
        RemoveExpired(sweepAt);
      }
    }

    method Verify(key: string, code: string, purpose: string, now: int) returns (ok: bool)
      ensures ok <==> Accepts(pairs, purpose + key, code, now)
    {
      var id := purpose + key;
      if id !in pairs || Elapsed(pairs[id], now) >= VALID_SECONDS {
        return false;
      }
      ok := code == pairs[id].code;
    }

    method Delete(key: string, purpose: string)
      modifies this
      ensures pairs == old(pairs) - {purpose + key}
    {
      pairs := pairs - {purpose + key};
    }

    /** Visits every key once, in any order. */
    method RemoveExpired(now: int)
      modifies this
      ensures pairs == Swept(old(pairs), now)
    {
      var todo := pairs.Keys;
      while todo != {}
        invariant todo <= pairs.Keys <= old(pairs).Keys
        invariant forall k :: k in pairs ==> pairs[k] == old(pairs)[k] && (k in todo || !Expired(pairs[k], now))
        invariant forall k :: k in old(pairs) && k !in pairs ==> Expired(old(pairs)[k], now)
        decreases |todo|
      {
        var k :| k in todo;
        todo := todo - {k};
        if Elapsed(pairs[k], now) >= VALID_SECONDS {
          pairs := pairs - {k};
        }
      }
    }
  }

  // ---------------------------------------------------------------- the history

  datatype Event =
    | RegisterCode(purpose: string, key: string, code: string, now: int, sweepAt: int)
    | DeleteCode(purpose: string, key: string)

  function After(events: seq<Event>, n: nat): Pairs
    requires n <= |events|
  {
    if n == 0 then map[]
    else
      match events[n - 1]
      case RegisterCode(purpose, key, code, now, sweepAt) =>
        Registered(After(events, n - 1), purpose + key, Code(code, now), sweepAt)
      case DeleteCode(purpose, key) => After(events, n - 1) - {purpose + key}
  }

  predicate About(e: Event, purpose: string, key: string) {
    e.purpose == purpose && e.key == key
  }

  /** The last code registered for a purpose and key and not deleted since, over the first `n` events. */
  function Latest(events: seq<Event>, n: nat, purpose: string, key: string): Option<Code>
    requires n <= |events|
  {
    if n == 0 then None
    else if !About(events[n - 1], purpose, key) then Latest(events, n - 1, purpose, key)
    else match events[n - 1]
      case RegisterCode(_, _, code, now, _) => Some(Code(code, now))
      case DeleteCode(_, _) => None
  }

  /** No clock reading among the first `n` events is later than `now`. */
  predicate ReadBefore(events: seq<Event>, n: nat, now: int)
    requires n <= |events|
  {
    forall i :: 0 <= i < n && events[i].RegisterCode? ==> events[i].sweepAt <= now && events[i].now <= now
  }

  /** No purpose is a prefix of another. */
  predicate PrefixFree(purposes: set<string>) {
    forall p, q :: p in purposes && q in purposes && p <= q ==> p == q
  }

  predicate Uses(events: seq<Event>, purposes: set<string>) {
    forall i :: 0 <= i < |events| ==> events[i].purpose in purposes
  }

  /** Two purposes can be joined with keys to the same identifier exactly when one is a prefix of the other. */
  lemma JoinsCollide(p: string, q: string)
    ensures (exists k, l :: p + k == q + l) <==> p <= q || q <= p
  {
    if k, l :| p + k == q + l {
      var id := p + k;
      assert id[..|p|] == p && id[..|q|] == q;
      if |p| <= |q| {
        assert q[..|p|] == p;
      } else {
        assert p[..|q|] == q;
      }
    }
    if p <= q {
      assert p + q[|p|..] == q + "";
    } else if q <= p {
      assert p + "" == q + p[|q|..];
    }
  }

  lemma JoinInjective(p: string, k: string, q: string, l: string)
    requires PrefixFree({p, q})
    ensures p + k == q + l <==> p == q && k == l
  {
    if p + k == q + l {
      JoinsCollide(p, q);
      assert (p + k)[|p|..] == k && (q + l)[|q|..] == l;
    }
  }

  /** What the map holds for an identifier is the latest code, and a missing latest code has expired. */
  predicate Tracks(pairs: Pairs, id: string, latest: Option<Code>, now: int) {
    if id in pairs then latest == Some(pairs[id]) else latest.Some? ==> Expired(latest.value, now)
  }

  lemma ExpiredStays(c: Code, t: int, now: int)
    requires t <= now && Expired(c, t)
    ensures Expired(c, now)
  {
  }

  lemma SweptTracks(pairs: Pairs, id: string, latest: Option<Code>, t: int, now: int)
    requires t <= now && Tracks(pairs, id, latest, now)
    ensures Tracks(Swept(pairs, t), id, latest, now)
  {
    if id in pairs && Expired(pairs[id], t) {
      ExpiredStays(pairs[id], t, now);
    }
  }

  lemma {:induction false} AfterTracks(events: seq<Event>, n: nat, purposes: set<string>, purpose: string, key: string,
                                       now: int)
    requires n <= |events| && PrefixFree(purposes) && Uses(events, purposes) && purpose in purposes
    requires ReadBefore(events, n, now)
    ensures Tracks(After(events, n), purpose + key, Latest(events, n, purpose, key), now)
  {
    if n > 0 {
      AfterTracks(events, n - 1, purposes, purpose, key, now);
      var e := events[n - 1];
      var before, latest := After(events, n - 1), Latest(events, n, purpose, key);
      JoinInjective(e.purpose, e.key, purpose, key);
      if e.RegisterCode? {
        var grown := before[e.purpose + e.key := Code(e.code, e.now)];
        assert Tracks(grown, purpose + key, latest, now);
        SweptTracks(grown, purpose + key, latest, e.sweepAt, now);
      }
    }
  }

  /** The code is the latest undeleted one for its purpose and key and younger than the limit. */
  predicate Current(events: seq<Event>, purpose: string, key: string, code: string, now: int) {
    var latest := Latest(events, |events|, purpose, key);
    latest.Some? && latest.value.code == code && now - latest.value.time < VALID_SECONDS * SECOND
  }

  /** After every run of registrations, deletions and the sweeps they cause, exactly the current code is accepted. */
  lemma AcceptsLatest(events: seq<Event>, purposes: set<string>, purpose: string, key: string, code: string, now: int)
    requires PrefixFree(purposes) && Uses(events, purposes) && purpose in purposes
    requires ReadBefore(events, |events|, now)
    ensures Accepts(After(events, |events|), purpose + key, code, now) <==> Current(events, purpose, key, code, now)
  {
    AfterTracks(events, |events|, purposes, purpose, key, now);
    var latest := Latest(events, |events|, purpose, key);
    if latest.Some? {
      ExpiredAt(latest.value, now);
    }
  }

  /** A code registered for a purpose counts for every longer purpose that starts with it. */
  lemma PrefixTagsCollide(p: string, q: string, code: string, now: int)
    requires p <= q && p != q
    ensures var events := [RegisterCode(p, q[|p|..], code, now, now)];
            Accepts(After(events, 1), q + "", code, now) && !Current(events, q, "", code, now)
  {
    var e := RegisterCode(p, q[|p|..], code, now, now);
    var events := [e];
    assert p + q[|p|..] == q + "";
    assert After(events, 0) == map[] && !About(events[0], q, "");
    assert After(events, 1) == map[q + "" := Code(code, now)];
    assert Latest(events, 1, q, "") == None;
  }

  ghost predicate Agrees(purposes: set<string>) {
    forall events, purpose, key, code, now ::
      Uses(events, purposes) && purpose in purposes && ReadBefore(events, |events|, now) ==>
        (Accepts(After(events, |events|), purpose + key, code, now) <==> Current(events, purpose, key, code, now))
  }

  /** The map agrees with the history on every run over a set of purposes exactly when the set is prefix-free. */
  lemma AgreesExactly(purposes: set<string>)
    ensures Agrees(purposes) <==> PrefixFree(purposes)
  {
    if PrefixFree(purposes) {
      forall events, purpose, key, code, now
        | Uses(events, purposes) && purpose in purposes && ReadBefore(events, |events|, now)
        ensures Accepts(After(events, |events|), purpose + key, code, now) <==> Current(events, purpose, key, code, now)
      {
        AcceptsLatest(events, purposes, purpose, key, code, now);
      }
    } else {
      var p, q :| p in purposes && q in purposes && p <= q && p != q;
      PrefixTagsCollide(p, q, "", 0);
      var events := [RegisterCode(p, q[|p|..], "", 0, 0)];
      assert Uses(events, purposes) && ReadBefore(events, |events|, 0);
    }
  }

  const EMAIL_VERIFICATION := "v"
  const PASSWORD_RESET := "r"

  /** The two purposes in use have one character each, so they never collide. */
  lemma PurposesInUseAgree()
    ensures Agrees({EMAIL_VERIFICATION, PASSWORD_RESET})
  {
    var purposes := {EMAIL_VERIFICATION, PASSWORD_RESET};
    forall p, q | p in purposes && q in purposes && p <= q ensures p == q {
      assert |p| == 1 && |q| == 1 && p[0] == q[0];
    }
    AgreesExactly(purposes);
  }

  lemma ExpiredAt(c: Code, now: int)
    ensures Expired(c, now) <==> now - c.time >= VALID_SECONDS * SECOND
  {
  }

  /** After a registration the map is small or holds no expired code. */
  lemma RegisterBounds(pairs: Pairs, id: string, code: Code, sweepAt: int)
    ensures var r := Registered(pairs, id, code, sweepAt);
            |r| <= MAX_SIZE || forall k :: k in r ==> !Expired(r[k], sweepAt)
  {
  }

  /** The two limits in figures: ten minutes in nanoseconds, and ten entries. */
  lemma LimitsWrittenOut(events: seq<Event>, purpose: string, key: string, code: string, now: int, pairs: Pairs,
                         id: string, c: Code, sweepAt: int)
    ensures Current(events, purpose, key, code, now)
            <==> exists t :: Latest(events, |events|, purpose, key) == Some(Code(code, t)) && now - t < 600_000_000_000
    ensures |pairs[id := c]| <= 10 ==> Registered(pairs, id, c, sweepAt) == pairs[id := c]
    ensures |pairs[id := c]| > 10 ==>
              forall k :: k in Registered(pairs, id, c, sweepAt)
                          <==> k in pairs[id := c] && sweepAt - pairs[id := c][k].time < 600_000_000_000
  {
    var latest := Latest(events, |events|, purpose, key);
    if Current(events, purpose, key, code, now) {
      assert latest == Some(Code(code, latest.value.time));
    }
  }
}
