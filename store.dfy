/**
 * The hosted backend as the storefront sees it: tables of rows keyed by id,
 * storage buckets of named objects, outgoing requests (edge-function calls and
 * mails) and the authentication directory.  Every call may fail for reasons
 * outside the program (network, permissions); the model lets each call choose
 * its success nondeterministically and states what it changes in either case.
 */
module Store {
  import opened Wrappers
  import Seqs

  /** A table of rows keyed by integer id; `next` is the id the next insert receives. */
  class Table<R> {
    var rows: map<int, R>
    var next: int

    ghost predicate Valid()
      reads this
    {
      forall k :: k in rows ==> k < next
    }

    constructor (initial: map<int, R>, firstId: int)
      requires forall k :: k in initial ==> k < firstId
      ensures Valid() && rows == initial && next == firstId
    {
      rows := initial;
      next := firstId;
    }

    /** `insert(row)`: on success the row is stored under a new id. */
    method Insert(r: R) returns (ok: bool, id: int)
      requires Valid()
      modifies this
      ensures Valid()
      ensures ok ==> id == old(next) && id !in old(rows) && rows == old(rows)[id := r] && next == old(next) + 1
      ensures !ok ==> rows == old(rows) && next == old(next)
    {
      ok :| true;
      id := next;
      if ok {
        rows := rows[id := r];
        next := next + 1;
      }
    }

    /** `update(...).eq(...)`: on success every row matching `p` is replaced by `f` of itself. */
    method UpdateWhere(p: R -> bool, f: R -> R) returns (ok: bool)
      requires Valid()
      modifies this
      ensures Valid() && next == old(next)
      ensures rows == if ok then UpdatedRows(old(rows), p, f) else old(rows)
    {
      ok :| true;
      if ok {
        rows := UpdatedRows(rows, p, f);
      }
    }

    /** `delete().eq(...)`: on success every row matching `p` is removed. */
    method DeleteWhere(p: R -> bool) returns (ok: bool)
      requires Valid()
      modifies this
      ensures Valid() && next == old(next)
      ensures rows == if ok then RemainingRows(old(rows), p) else old(rows)
    {
      ok :| true;
      if ok {
        rows := RemainingRows(rows, p);
      }
    }

    /** `select().eq('id', id).single()`: the row, when the call succeeds and the id exists. */
    method Get(id: int) returns (found: Option<R>)
      ensures found.Some? ==> id in rows && found.value == rows[id]
    {
      var ok :| true;
      found := if ok && id in rows then Some(rows[id]) else None;
    }

    /** `update(...).eq('id', id)`. */
    method UpdateKey(id: int, f: R -> R) returns (ok: bool)
      requires Valid()
      modifies this
      ensures Valid() && next == old(next)
      ensures rows == if ok && id in old(rows) then old(rows)[id := f(old(rows)[id])] else old(rows)
    {
      ok :| true;
      if ok && id in rows {
        rows := rows[id := f(rows[id])];
      }
    }

    /** `delete().eq('id', id)`. */
    method DeleteKey(id: int) returns (ok: bool)
      requires Valid()
      modifies this
      ensures Valid() && next == old(next)
      ensures rows == if ok then old(rows) - {id} else old(rows)
    {
      ok :| true;
      if ok {
        rows := rows - {id};
      }
    }

    /** `select().eq(...).single()`: a row only when the call succeeds and exactly one row matches. */
    method Single(p: R -> bool) returns (found: Option<(int, R)>)
      requires Valid()
      ensures found.Some? ==> IsOnlyMatch(rows, p, found.value.0) && found.value.1 == rows[found.value.0]
    {
      var ok :| true;
      found := None;
      var matches := set k | k in rows && p(rows[k]);
      var keys := Enumerate(matches);
      if ok && |keys| == 1 {
        var k := keys[0];
        assert forall j :: j in rows && p(rows[j]) ==> j in keys;
        found := Some((k, rows[k]));
      }
    }

    /** `select().eq(...)`: the ids of the matching rows, in some order and each once,
        when the call succeeds. */
    method Select(p: R -> bool) returns (found: Option<seq<int>>)
      ensures found.Some? ==> Seqs.Distinct(found.value)
      ensures found.Some? ==> forall k :: k in found.value ==> k in rows && p(rows[k])
      ensures found.Some? ==> forall k :: k in rows && p(rows[k]) ==> k in found.value
    {
      var ok :| true;
      found := None;
      if ok {
        var keys := Enumerate(set k | k in rows && p(rows[k]));
        found := Some(keys);
      }
    }

    /** `select().in('id', keys)`: the rows with those ids, when the call succeeds. */
    method SelectKeys(keys: set<int>) returns (found: Option<map<int, R>>)
      ensures found.Some? ==> found.value.Keys == rows.Keys * keys
      ensures found.Some? ==> forall k :: k in found.value ==> found.value[k] == rows[k]
    {
      var ok :| true;
      found := None;
      if ok {
        found := Some(map k | k in rows && k in keys :: rows[k]);
      }
    }
  }

  function UpdatedRows<R>(rows: map<int, R>, p: R -> bool, f: R -> R): (r: map<int, R>)
    ensures r.Keys == rows.Keys
    ensures forall k :: k in rows ==> r[k] == if p(rows[k]) then f(rows[k]) else rows[k]
  {
    map k | k in rows :: if p(rows[k]) then f(rows[k]) else rows[k]
  }

  function RemainingRows<R>(rows: map<int, R>, p: R -> bool): (r: map<int, R>)
    ensures forall k :: k in r <==> k in rows && !p(rows[k])
    ensures forall k :: k in r ==> r[k] == rows[k]
  {
    map k | k in rows && !p(rows[k]) :: rows[k]
  }

  /** `k` is the one row of `rows` that matches `p`. */
  predicate IsOnlyMatch<R>(rows: map<int, R>, p: R -> bool, k: int) {
    k in rows && p(rows[k]) && forall j :: j in rows && p(rows[j]) ==> j == k
  }

  /** The public URL of a stored object, as the storage client's `getPublicUrl` builds it. */
  function PublicUrl(base: string, bucket: string, path: string): string {
    base + "/storage/v1/object/public/" + bucket + "/" + path
  }

  /** Storage buckets, each holding a set of object paths. */
  class Storage {
    const base: string
    var buckets: map<string, set<string>>

    constructor (base: string, buckets: map<string, set<string>>)
      ensures this.base == base && this.buckets == buckets
    {
      this.base := base;
      this.buckets := buckets;
    }

    function Objects(bucket: string): set<string>
      reads this
    {
      if bucket in buckets then buckets[bucket] else {}
    }

    /** `upload(path, file, { upsert })`: without upsert an existing path is an error. */
    method Upload(bucket: string, path: string, upsert: bool) returns (ok: bool)
      modifies this
      ensures ok ==> upsert || path !in old(Objects(bucket))
      ensures buckets == if ok then old(buckets)[bucket := old(Objects(bucket)) + {path}] else old(buckets)
    {
      ok :| true;
      if !upsert && path in Objects(bucket) {
        ok := false;
      }
      if ok {
        buckets := buckets[bucket := Objects(bucket) + {path}];
      }
    }

    /** `remove(paths)`: on success none of the paths is left in the bucket. */
    method Remove(bucket: string, paths: seq<string>) returns (ok: bool)
      modifies this
      ensures buckets == if ok then old(buckets)[bucket := old(Objects(bucket)) - set p | p in paths] else old(buckets)
    {
      ok :| true;
      if ok {
        buckets := buckets[bucket := Objects(bucket) - set p | p in paths];
      }
    }

    /** `list('', { limit })`: on success at most `limit` distinct names of the bucket,
        and all of them when the bucket holds no more than `limit`. */
    method List(bucket: string, limit: nat) returns (ok: bool, names: seq<string>)
      ensures |names| <= limit && Seqs.Distinct(names)
      ensures forall i :: 0 <= i < |names| ==> names[i] in Objects(bucket)
      ensures ok && |Objects(bucket)| <= limit ==> forall x :: x in Objects(bucket) ==> x in names
      ensures !ok ==> names == []
    {
      ok :| true;
      names := [];
      if ok {
        var all := Enumerate(Objects(bucket));
        names := Seqs.Take(all, limit);
        assert names <= all;
        assert |all| == |Objects(bucket)|;
      }
    }
  }

  /** The elements of a set, in some order, each once. */
  method Enumerate<T>(s: set<T>) returns (r: seq<T>)
    ensures Seqs.Distinct(r) && |r| == |s|
    ensures forall x :: x in r <==> x in s
  {
    r := [];
    var rest := s;
    while rest != {}
      invariant Seqs.Distinct(r)
      invariant forall x :: x in r <==> x in s && x !in rest
      invariant rest <= s
      invariant |r| + |rest| == |s|
      decreases |rest|
    {
      var x :| x in rest;
      r := r + [x];
      rest := rest - {x};
    }
  }

  /** Outgoing messages: edge-function requests or mails; a send may fail in transit. */
  class Outbox<M> {
    var sent: seq<M>

    constructor ()
      ensures sent == []
    {
      sent := [];
    }

    method Send(m: M) returns (delivered: bool)
      modifies this
      ensures sent == if delivered then old(sent) + [m] else old(sent)
    {
      delivered :| true;
      if delivered {
        sent := sent + [m];
      }
    }
  }

  datatype AuthUser = AuthUser(id: int, email: string, password: string)

  /** The `data` of a user listing: an object whose `users` field is the array of users. */
  datatype UserPage = UserPage(users: seq<AuthUser>)

  /** The authentication service's user directory. */
  class AuthDirectory {
    var users: seq<AuthUser>

    constructor (users: seq<AuthUser>)
      ensures this.users == users
    {
      this.users := users;
    }

    /** `auth.admin.listUsers()`, resolving to `{ data, error }`: `data` is the page object,
        holding the users on success and no user when the call failed. */
    method List() returns (data: UserPage, failed: bool)
      ensures data.users == if failed then [] else users
    {
      failed :| true;
      data := UserPage(if failed then [] else users);
    }

    /** `auth.admin.updateUserById(id, { password })`. */
    method UpdatePassword(id: int, password: string) returns (ok: bool)
      modifies this
      ensures users == if ok then WithPassword(old(users), id, password) else old(users)
    {
      ok :| true;
      if ok {
        users := WithPassword(users, id, password);
      }
    }
  }

  /** The directory after the user with `id` got a new password: nobody else changes. */
  function WithPassword(users: seq<AuthUser>, id: int, password: string): (r: seq<AuthUser>)
    ensures |r| == |users|
    ensures forall i :: 0 <= i < |users| ==>
      r[i] == if users[i].id == id then users[i].(password := password) else users[i]
  {
    seq(|users|, i requires 0 <= i < |users| =>
      if users[i].id == id then users[i].(password := password) else users[i])
  }
}
