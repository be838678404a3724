/**
 One process's tables beside the shared config file, and the methods that change them in place
 (hermes-plugin-honcho/oauth.py), as one thread runs them.  What other processes write to the file
 while this one waits comes in as a parameter; `OAuthRefresh` interleaves them step by step.

 The tables are keyed by host; the path is fixed.
 */
module OAuthTables {
  import opened Wrappers
  import opened OAuthRefresh

  class RefreshTables {
    var file: File
    var expiryCache: map<nat, Cred>
    var deadGrants: map<nat, Tok>
    var failureAt: map<nat, int>

    constructor (f: File)
      ensures file == f && expiryCache == map[] && deadGrants == map[] && failureAt == map[]
    {
      file, expiryCache, deadGrants, failureAt := f, map[], map[], map[];
    }

    predicate CoolingDown(host: nat, mono: int)
      reads this
    {
      host in failureAt && mono - failureAt[host] < COOLDOWN
    }

    predicate GrantIsDead(host: nat, cred: Cred)
      reads this
    {
      host in deadGrants && deadGrants[host] == cred.tok
    }

    /** `reauth_required`. */
    predicate ReauthRequired(host: nat)
      reads this
    {
      host in deadGrants && Load(file, host).Some? && GrantIsDead(host, Load(file, host).value)
    }

    /** The credential is on disk and in the cache, and nothing is held against it. */
    ghost predicate Live(host: nat, cred: Cred)
      reads this
    {
      Load(file, host) == Some(cred) && host in expiryCache && expiryCache[host] == cred
      && host !in deadGrants && host !in failureAt
    }

    /** `_persist_credential`. */
    method PersistCredential(host: nat, cred: Cred, raw: File)
      modifies this
      ensures file == WithCred(raw, host, cred) && Live(host, cred) && !ReauthRequired(host)
      ensures expiryCache == old(expiryCache)[host := cred]
      ensures deadGrants == old(deadGrants) - {host} && failureAt == old(failureAt) - {host}
    {
      file := WithCred(raw, host, cred);
      expiryCache := expiryCache[host := cred];
      deadGrants := deadGrants - {host};
      failureAt := failureAt - {host};
    }

    /** `_rotate_and_persist`: the two tries of the exchange end in `first` and, if that may be tried again,
        in `second`; `sibling` is the file a rejection finds, which differs from this one only when another
        process went without the file lock. */
    method RotateAndPersist(host: nat, cred: Cred, mono: int, readable: bool, first: Outcome, second: Outcome, sibling: File)
      returns (got: Option<Cred>)
      modifies this
      ensures got.Some? ==> got.value.tok != cred.tok && Load(file, host) == got && !ReauthRequired(host)
      ensures var last := if first.Transient? && first.again then second else first;
        && (readable && last.Rotated? ==>
              got == Some(Cred(Tok(cred.tok.grant, cred.tok.n + 1), last.expires))
              && file == WithCred(old(file), host, got.value) && Live(host, got.value))
        && (readable && last.Permanent? ==>
              var disk := Load(sibling, host);
              && file == sibling && failureAt == old(failureAt)
              && got == (if disk.Some? && disk.value.tok != cred.tok then disk else None)
              && expiryCache == (if got.Some? then old(expiryCache)[host := got.value] else old(expiryCache))
              && deadGrants == (if got.Some? then old(deadGrants) - {host} else old(deadGrants)[host := cred.tok])
              && ReauthRequired(host) == (disk.Some? && disk.value.tok == cred.tok))
        && (!readable || last.Transient? ==>
              && got.None? && file == old(file) && deadGrants == old(deadGrants) && expiryCache == old(expiryCache)
              && failureAt == old(failureAt)[host := mono])
      ensures expiryCache - {host} == old(expiryCache) - {host}
        && deadGrants - {host} == old(deadGrants) - {host} && failureAt - {host} == old(failureAt) - {host}
    {
      if !readable {
        failureAt := failureAt[host := mono];
        return None;
      }
      var raw := file;
      var outcome := first;
      if first.Transient? && first.again {
        outcome := second;
      }
      match outcome
      case Rotated(expires) =>
        var rotated := Cred(Tok(cred.tok.grant, cred.tok.n + 1), expires);
        PersistCredential(host, rotated, raw);
        got := Some(rotated);
      case Permanent =>
        file := sibling;
        var disk := Load(file, host);
        if disk.Some? && disk.value.tok != cred.tok {
          deadGrants := deadGrants - {host};
          expiryCache := expiryCache[host := disk.value];
          got := disk;
        } else {
          deadGrants := deadGrants[host := cred.tok];
          got := None;
        }
      case Transient(_) =>
        failureAt := failureAt[host := mono];
        got := None;
    }

    /** What `ensure_fresh_token` does under the locks, `read` being what it read before them. */
    method RefreshUnderLocks(host: nat, read: Cred, now: int, mono: int, readable: bool,
                             first: Outcome, second: Outcome, sibling: File)
      returns (access: Tok, refreshed: bool)
      modifies this
      ensures old(host in expiryCache) ==> host in expiryCache
      ensures refreshed ==> Load(file, host).Some? && Load(file, host).value.tok == access
      ensures var current := if Load(old(file), host).Some? then Load(old(file), host).value else read;
        var last := if first.Transient? && first.again then second else first;
        var held := (host in old(deadGrants) && old(deadGrants)[host] == current.tok)
                    || (host in old(failureAt) && mono - old(failureAt)[host] < 30);
        && (now < current.expires - 120 || held ==>
              && access == current.tok && refreshed == (now < current.expires - 120 && current.tok != read.tok)
              && unchanged(this))
        && (current.expires - 120 <= now && !held ==>
              && (readable && last.Rotated? ==>
                    var rotated := Cred(Tok(current.tok.grant, current.tok.n + 1), last.expires);
                    refreshed && access == rotated.tok && file == WithCred(old(file), host, rotated) && Live(host, rotated))
              && (readable && last.Permanent? ==>
                    var disk := Load(sibling, host);
                    && file == sibling && unchanged(`failureAt)
                    && refreshed == (disk.Some? && disk.value.tok != current.tok)
                    && access == (if refreshed then disk.value.tok else current.tok)
                    && deadGrants == if refreshed then old(deadGrants) - {host} else old(deadGrants)[host := current.tok])
              && (!readable || last.Transient? ==>
                    && !refreshed && access == current.tok && unchanged(`file) && unchanged(`deadGrants)
                    && failureAt == old(failureAt)[host := mono]))
      ensures expiryCache - {host} == old(expiryCache) - {host}
        && deadGrants - {host} == old(deadGrants) - {host} && failureAt - {host} == old(failureAt) - {host}
    {
      var current := if Load(file, host).Some? then Load(file, host).value else read;
      if !Expired(current, now) {
        return current.tok, current.tok != read.tok;
      }
      if GrantIsDead(host, current) || CoolingDown(host, mono) {
        return current.tok, false;
      }
      var rotated := RotateAndPersist(host, current, mono, readable, first, second, sibling);
      if rotated.Some? {
        return rotated.value.tok, true;
      }
      return current.tok, false;
    }

    /** `ensure_fresh_token`: `given` is the config the caller passed, `met` the file under the locks.  A
        credential that is expired with the skew of 120 seconds, before the locks and under them, not
        marked dead and 30 seconds clear of a failure, is rotated. */
    method EnsureFreshToken(host: nat, given: Option<File>, now: int, mono: int, met: File, readable: bool,
                            first: Outcome, second: Outcome, sibling: File)
      returns (access: Option<Tok>, refreshed: bool)
      modifies this
      ensures refreshed ==> access.Some? && Load(file, host).Some? && Load(file, host).value.tok == access.value
      ensures access.None? <==> host !in expiryCache
      ensures access.None? ==> file == old(file) && Load(if given.Some? then given.value else file, host).None?
      // the cache serves the call
      ensures given.None? && host in old(expiryCache) && now < old(expiryCache)[host].expires - 120 ==>
        (access == Some(old(expiryCache)[host].tok) && !refreshed && unchanged(this))
      // the credential read before the locks does, or there is none
      ensures var read := Load(if given.Some? then given.value else old(file), host);
        (given.Some? || host !in old(expiryCache) || old(expiryCache)[host].expires - 120 <= now)
        && (read.None? || now < read.value.expires - 120 || (host in old(failureAt) && mono - old(failureAt)[host] < 30)) ==>
          && !refreshed && unchanged(`file) && unchanged(`deadGrants) && unchanged(`failureAt)
          && access == (if read.Some? then Some(read.value.tok) else None)
          && expiryCache == if read.Some? then old(expiryCache)[host := read.value] else old(expiryCache) - {host}
      // otherwise the one under the locks decides
      ensures var read := Load(if given.Some? then given.value else old(file), host);
        (given.Some? || host !in old(expiryCache) || old(expiryCache)[host].expires - 120 <= now)
        && read.Some? && read.value.expires - 120 <= now
        && (host in old(failureAt) ==> 30 <= mono - old(failureAt)[host]) ==>
          var current := if Load(met, host).Some? then Load(met, host).value else read.value;
          var last := if first.Transient? && first.again then second else first;
          && access.Some?
          // another process has rotated it, or it is dead
          && (now < current.expires - 120 || (host in old(deadGrants) && old(deadGrants)[host] == current.tok) ==>
                && access.value == current.tok && refreshed == (now < current.expires - 120 && current.tok != read.value.tok)
                && file == met && unchanged(`deadGrants) && unchanged(`failureAt)
                && expiryCache == old(expiryCache)[host := read.value])
          // it is rotated
          && (current.expires - 120 <= now && (host in old(deadGrants) ==> old(deadGrants)[host] != current.tok) ==>
                && (readable && last.Rotated? ==>
                      var rotated := Cred(Tok(current.tok.grant, current.tok.n + 1), last.expires);
                      refreshed && access.value == rotated.tok && file == WithCred(met, host, rotated) && Live(host, rotated))
                && (readable && last.Permanent? ==>
                      var disk := Load(sibling, host);
                      && file == sibling && unchanged(`failureAt)
                      && refreshed == (disk.Some? && disk.value.tok != current.tok)
                      && access == (if refreshed then Some(disk.value.tok) else Some(current.tok))
                      && deadGrants == if refreshed then old(deadGrants) - {host} else old(deadGrants)[host := current.tok])
                && (!readable || last.Transient? ==>
                      && !refreshed && access.value == current.tok && file == met && unchanged(`deadGrants)
                      && failureAt == old(failureAt)[host := mono]))
      ensures expiryCache - {host} == old(expiryCache) - {host}
        && deadGrants - {host} == old(deadGrants) - {host} && failureAt - {host} == old(failureAt) - {host}
    {
      if given.None? && host in expiryCache && !Expired(expiryCache[host], now) {
        return Some(expiryCache[host].tok), false;
      }
      var cred := Load(if given.Some? then given.value else file, host);
      if cred.None? {
        expiryCache := expiryCache - {host};
        return None, false;
      }
      expiryCache := expiryCache[host := cred.value];
      if !Expired(cred.value, now) || CoolingDown(host, mono) {
        return Some(cred.value.tok), false;
      }
      file := met;
      var token;
      token, refreshed := RefreshUnderLocks(host, cred.value, now, mono, readable, first, second, sibling);
      access := Some(token);
    }

    /** `force_refresh_token`: adopts what a sibling stored rather than replay a token; otherwise it rotates
        whatever the expiry, unless the grant is dead or a failure less than 30 seconds old. */
    method ForceRefreshToken(host: nat, failed: Option<Tok>, now: int, mono: int, readable: bool,
                             first: Outcome, second: Outcome, sibling: File) returns (access: Option<Tok>)
      modifies this
      ensures access.Some? ==> Load(file, host).Some? && Load(file, host).value.tok == access.value
      ensures Load(old(file), host).None? ==>
        access.None? && expiryCache == old(expiryCache) - {host} && unchanged(`file) && unchanged(`deadGrants) && unchanged(`failureAt)
      ensures var read := Load(old(file), host);
        read.Some? ==>
          var moved := (failed.Some? && read.value.tok != failed.value)
                       || (host in old(expiryCache) && read.value.tok != old(expiryCache)[host].tok);
          var held := (host in old(deadGrants) && old(deadGrants)[host] == read.value.tok)
                      || (host in old(failureAt) && mono - old(failureAt)[host] < 30);
          var last := if first.Transient? && first.again then second else first;
          // a sibling has rotated it
          && (moved && now < read.value.expires - 120 ==>
                && access == Some(read.value.tok) && unchanged(`file) && unchanged(`deadGrants) && unchanged(`failureAt)
                && expiryCache == old(expiryCache)[host := read.value])
          && (!(moved && now < read.value.expires - 120) && held ==> access.None? && unchanged(this))
          // it is rotated
          && (!(moved && now < read.value.expires - 120) && !held ==>
                && (readable && last.Rotated? ==>
                      var rotated := Cred(Tok(read.value.tok.grant, read.value.tok.n + 1), last.expires);
                      access == Some(rotated.tok) && file == WithCred(old(file), host, rotated) && Live(host, rotated))
                && (readable && last.Permanent? ==>
                      var disk := Load(sibling, host);
                      && file == sibling && unchanged(`failureAt)
                      && access == (if disk.Some? && disk.value.tok != read.value.tok then Some(disk.value.tok) else None)
                      && deadGrants == if access.Some? then old(deadGrants) - {host} else old(deadGrants)[host := read.value.tok])
                && (!readable || last.Transient? ==>
                      && access.None? && unchanged(`file) && unchanged(`deadGrants) && unchanged(`expiryCache)
                      && failureAt == old(failureAt)[host := mono]))
      ensures expiryCache - {host} == old(expiryCache) - {host}
        && deadGrants - {host} == old(deadGrants) - {host} && failureAt - {host} == old(failureAt) - {host}
    {
      var read := Load(file, host);
      if read.None? {
        expiryCache := expiryCache - {host};
        return None;
      }
      var cred := read.value;
      var movedOffFailed := failed.Some? && cred.tok != failed.value;
      var movedOffCached := host in expiryCache && cred.tok != expiryCache[host].tok;
      if (movedOffFailed || movedOffCached) && !Expired(cred, now) {
        expiryCache := expiryCache[host := cred];
        return Some(cred.tok);
      }
      if GrantIsDead(host, cred) || CoolingDown(host, mono) {
        return None;
      }
      var rotated := RotateAndPersist(host, cred, mono, readable, first, second, sibling);
      access := if rotated.Some? then Some(rotated.value.tok) else None;
    }

    /** `install_grant`, its config merge touching the root only. */
    method InstallGrant(host: nat, cred: Cred, root: nat)
      modifies this
      ensures file == WithCred(old(file).(root := root), host, cred) && Live(host, cred) && !ReauthRequired(host)
    {
      var raw := file.(root := root);
      PersistCredential(host, cred, raw);
    }
  }
}
