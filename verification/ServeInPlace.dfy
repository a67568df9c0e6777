/** The answer-file handlers as they change the rows of the two tables in place. */
module ServeInPlace {
  import opened Wrappers
  import opened ServeAnswer

  class Tables {
    var profiles: map<Id, Profile>
    var runs: map<Id, Run>

    function Now(): Store
      reads this
    {
      Store(profiles, runs)
    }

    constructor ()
      ensures Now() == Store(map[], map[])
    {
      profiles, runs := map[], map[];
    }

    method CreateProfile(id: Id, token: string, terms: Terms)
      requires id !in profiles
      modifies this`profiles
      ensures Now() == CreatedIn(old(Now()), id, token, terms)
    {
      profiles := profiles[id := Profile(token, terms, 0)];
    }

    method UpdateProfile(id: Id, terms: Terms) returns (found: bool)
      modifies this`profiles
      ensures found == (id in old(profiles))
      ensures Now() == EditedIn(old(Now()), id, terms)
    {
      found := id in profiles;
      if found {
        profiles := profiles[id := profiles[id].(terms := terms)];
      }
    }

    method RotateToken(id: Id, token: string) returns (found: bool)
      modifies this`profiles
      ensures found == (id in old(profiles))
      ensures Now() == RotatedIn(old(Now()), id, token)
    {
      found := id in profiles;
      if found {
        profiles := profiles[id := profiles[id].(token := token, uses := 0)];
      }
    }

    method DeleteProfile(id: Id) returns (found: bool)
      modifies this
      ensures found == (id in old(profiles))
      ensures Now() == DeletedFrom(old(Now()), id)
    {
      found := id in profiles;
      if found {
        runs := runs - RunsOf(runs, id);
        profiles := profiles - {id};
      }
    }

    /** The first half of a fetch: nothing is claimed yet. */
    method Read(id: Id, token: string, now: int) returns (f: Option<Fetch>)
      requires HasToken(Now(), id, token)
      ensures f == if Usable(profiles[id], now) then Some(Fetch(id, token, profiles[id].terms.answer)) else None
    {
      var p := profiles[id];
      if !p.terms.enabled || Expired(p.terms, now) {
        return None;
      }
      if p.terms.max != 0 && p.uses >= p.terms.max {
        return None;
      }
      f := Some(Fetch(id, token, p.terms.answer));
    }

    /** The second half: the guarded statement, and then the run. */
    method Claim(f: Fetch, fingerprint: string, callback: string, now: int, picks: Picks) returns (served: bool)
      requires Answers(Now(), f, fingerprint, callback, now, picks)
      modifies this
      ensures served == Claims(old(Now()), f, now)
      ensures Now() == Claimed(old(Now()), f, fingerprint, callback, now, picks)
    {
      var p := if f.profile in profiles then Some(profiles[f.profile]) else None;
      served := p.Some? && p.value.token == f.token && p.value.terms.enabled
                && (p.value.terms.max == 0 || p.value.uses < p.value.terms.max)
                && (p.value.terms.expires.None? || p.value.terms.expires.value > now);
      if !served {
        return;
      }
      profiles := profiles[f.profile := p.value.(uses := p.value.uses + 1)];
      var run := Run(f.profile, fingerprint, callback, now);
      if picks.existing.Some? {
        runs := runs[picks.existing.value := run];
      } else {
        runs := runs[picks.newId := run];
        runs := runs - (RunsOf(runs, f.profile) - picks.kept);
      }
    }
  }
}
