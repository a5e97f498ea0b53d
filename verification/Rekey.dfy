/**
 Re-keying the stored environment (cmd/rekey-env/main.go, internal/auth/crypto.go). The AEAD is ideal
 (sections 7.1 and 7.2 of NIST SP 800-38D): a sealed value opens under its own key and associated data
 and under nothing else, and no other bytes open at all.
 */
module Rekey {
  import opened Wrappers

  // ----- the AEAD -----

  type Kek = nat
  type Plaintext = seq<nat>

  datatype Ciphertext =
    | Sealed(kek: Kek, aad: string, plaintext: Plaintext, nonce: nat)
    | Garbage(bytes: seq<nat>)

  const NO_AAD := ""

  function Encrypt(kek: Kek, plaintext: Plaintext, aad: string, nonce: nat): Ciphertext {
    Sealed(kek, aad, plaintext, nonce)
  }

  function Decrypt(kek: Kek, c: Ciphertext, aad: string): Option<Plaintext> {
    if c.Sealed? && c.kek == kek && c.aad == aad then Some(c.plaintext) else None
  }

  // ----- the associated data -----

  const NUL: char := '\0'

  /** project_env, the project and the key, with NULs between them. */
  function EnvAad(project: string, key: string): string {
    "project_env" + [NUL] + (project + [NUL] + key)
  }

  /** The row a value belongs to. */
  datatype Slot = Slot(project: string, key: string)

  function AadOf(slot: Slot): string { EnvAad(slot.project, slot.key) }

  /** A project id is a UUID's text: no NUL in it. */
  ghost predicate ProjectText(project: string) { NUL !in project }

  /** Different rows have different associated data, and none has the legacy empty one. */
  lemma EnvAadInjective(a: Slot, b: Slot)
    requires ProjectText(a.project) && ProjectText(b.project)
    ensures AadOf(a) == AadOf(b) ==> a == b
    ensures AadOf(a) != "" && NO_AAD == ""
  {
    if AadOf(a) == AadOf(b) {
      var x, y := a.project + [NUL] + a.key, b.project + [NUL] + b.key;
      assert AadOf(a)[12..] == x && AadOf(b)[12..] == y;
      SplitAtNul(a.project, a.key, b.project, b.key);
    }
  }

  lemma SplitAtNul(p: string, k: string, q: string, l: string)
    requires NUL !in p && NUL !in q && p + [NUL] + k == q + [NUL] + l
    ensures p == q && k == l
  {
    var s := p + [NUL] + k;
    assert s[|p|] == NUL && s[|q|] == NUL;
    assert forall i | 0 <= i < |p| :: s[i] == p[i] && p[i] in p;
    assert forall i | 0 <= i < |q| :: s[i] == q[i] && q[i] in q;
    assert |p| == |q|;
    assert p == s[..|p|] && q == s[..|q|];
    assert k == s[|p| + 1..] && l == s[|q| + 1..];
  }

  // ----- rows -----

  type Table = map<Slot, Ciphertext>

  /** What the run reads a row as, trying the three formats in order. */
  function ReadAs(c: Ciphertext, oldKek: Kek, newKek: Kek, aad: string): Option<Plaintext> {
    if Decrypt(newKek, c, aad).Some? then Decrypt(newKek, c, aad)
    else if Decrypt(oldKek, c, aad).Some? then Decrypt(oldKek, c, aad)
    else Decrypt(oldKek, c, NO_AAD)
  }

  /** Sealed under the key and bound to its own row. */
  predicate Bound(c: Ciphertext, kek: Kek, slot: Slot) { Decrypt(kek, c, AadOf(slot)).Some? }

  ghost predicate AllReadable(t: Table, oldKek: Kek, newKek: Kek) {
    forall s | s in t :: ReadAs(t[s], oldKek, newKek, AadOf(s)).Some?
  }

  ghost predicate AllBound(t: Table, kek: Kek) { forall s | s in t :: Bound(t[s], kek, s) }

  /** Same rows, every row bound under the new key with the plaintext it had; rows that were bound are untouched. */
  ghost predicate Rekeyed(t: Table, oldKek: Kek, newKek: Kek, t': Table) {
    && t'.Keys == t.Keys
    && forall s | s in t ::
         && ReadAs(t[s], oldKek, newKek, AadOf(s)).Some?
         && Decrypt(newKek, t'[s], AadOf(s)) == ReadAs(t[s], oldKek, newKek, AadOf(s))
         && (Bound(t[s], newKek, s) ==> t'[s] == t[s])
  }

  datatype Outcome = Aborted(unreadable: set<Slot>) | DryRun | NothingToDo | Migrated(rows: nat) | VerifyFailed

  /** How one pass over the rows sorts them. */
  ghost predicate PlanCovers(t: Table, oldKek: Kek, newKek: Kek, done: set<Slot>, todo: map<Slot, Ciphertext>,
      failed: set<Slot>) {
    && todo.Keys <= done && failed <= done && done <= t.Keys
    && forall s | s in done ::
         && (s in failed <==> ReadAs(t[s], oldKek, newKek, AadOf(s)).None?)
         && (s in todo <==> !Bound(t[s], newKek, s) && ReadAs(t[s], oldKek, newKek, AadOf(s)).Some?)
         && (s in todo ==> Decrypt(newKek, todo[s], AadOf(s)) == ReadAs(t[s], oldKek, newKek, AadOf(s)))
  }

  datatype Action = Skip | Reseal(c: Ciphertext) | Fail

  /** What one row's ciphertext calls for. */
  ghost predicate PlannedAs(c: Ciphertext, oldKek: Kek, newKek: Kek, aad: string, action: Action) {
    match action
    case Skip => Decrypt(newKek, c, aad).Some?
    case Fail => ReadAs(c, oldKek, newKek, aad).None?
    case Reseal(c') =>
      && Decrypt(newKek, c, aad).None? && ReadAs(c, oldKek, newKek, aad).Some?
      && Decrypt(newKek, c', aad) == ReadAs(c, oldKek, newKek, aad)
  }

  method PlanRow(c: Ciphertext, oldKek: Kek, newKek: Kek, aad: string) returns (action: Action)
    ensures PlannedAs(c, oldKek, newKek, aad, action)
  {
    if Decrypt(newKek, c, aad).Some? {
      return Skip;
    }
    var plaintext := Decrypt(oldKek, c, aad);
    if plaintext.None? {
      plaintext := Decrypt(oldKek, c, NO_AAD);
    }
    if plaintext.None? {
      return Fail;
    }
    var nonce: nat := *;
    action := Reseal(Encrypt(newKek, plaintext.value, aad, nonce));
  }

  lemma PlanSnoc(t: Table, oldKek: Kek, newKek: Kek, done: set<Slot>, todo: map<Slot, Ciphertext>,
      failed: set<Slot>, s: Slot, action: Action)
    requires PlanCovers(t, oldKek, newKek, done, todo, failed) && s in t && s !in done
    requires PlannedAs(t[s], oldKek, newKek, AadOf(s), action)
    ensures s !in todo && s !in failed
    ensures PlanCovers(t, oldKek, newKek, done + {s}, if action.Reseal? then todo[s := action.c] else todo,
                    if action.Fail? then failed + {s} else failed)
  {
    hide AadOf, Decrypt;
  }

  lemma MoveOne(all: set<Slot>, seen: set<Slot>, left: set<Slot>, s: Slot)
    requires seen !! left && seen + left == all && s in left
    ensures s !in seen && seen + {s} !! left - {s} && (seen + {s}) + (left - {s}) == all
    ensures |seen + {s}| == |seen| + 1 && |left - {s}| < |left|
  {
  }

  lemma OneMoreFailed(failed: set<Slot>, s: Slot)
    requires s !in failed
    ensures |failed + {s}| == |failed| + 1
  {
  }

  lemma OneMoreToDo(todo: map<Slot, Ciphertext>, s: Slot, c: Ciphertext)
    requires s !in todo
    ensures |todo[s := c].Keys| == |todo.Keys| + 1
  {
    assert todo[s := c].Keys == todo.Keys + {s};
  }

  class EnvStore {
    var rows: Table

    constructor (rows: Table)
      ensures this.rows == rows
    {
      this.rows := rows;
    }

    /** The loop over the rows: what to rewrite, and what cannot be read. */
    method Plan(oldKek: Kek, newKek: Kek) returns (todo: map<Slot, Ciphertext>, skipped: nat, failed: set<Slot>)
      ensures PlanCovers(rows, oldKek, newKek, rows.Keys, todo, failed)
      ensures |todo| + skipped + |failed| == |rows|
    {
      todo, skipped, failed := map[], 0, {};
      var left := rows.Keys;
      ghost var seen: set<Slot> := {};
      while left != {}
        invariant seen !! left && seen + left == rows.Keys
        invariant PlanCovers(rows, oldKek, newKek, seen, todo, failed)
        invariant |todo.Keys| + skipped + |failed| == |seen|
        decreases |left|
      {
        var s :| s in left;
        var action := PlanRow(rows[s], oldKek, newKek, AadOf(s));
        PlanSnoc(rows, oldKek, newKek, seen, todo, failed, s, action);
        MoveOne(rows.Keys, seen, left, s);
        hide *;
        match action {
          case Skip => skipped := skipped + 1;
          case Fail =>
            OneMoreFailed(failed, s);
            failed := failed + {s};
          case Reseal(c) =>
            OneMoreToDo(todo, s, c);
            todo := todo[s := c];
        }
        left, seen := left - {s}, seen + {s};
      }
      assert seen == rows.Keys;
    }

    /** The transaction: all the updates or none. */
    method Rewrite(todo: map<Slot, Ciphertext>)
      requires todo.Keys <= rows.Keys
      modifies this
      ensures rows == old(rows) + todo
    {
      var left := todo.Keys;
      ghost var before := rows;
      while left != {}
        invariant left <= todo.Keys && rows.Keys == before.Keys
        invariant forall s | s in before :: rows[s] == if s in todo && s !in left then todo[s] else before[s]
        decreases |left|
      {
        var s :| s in left;
        rows := rows[s := todo[s]];
        left := left - {s};
      }
    }

    /** Every row opens under the key and its own associated data, and there is at least one. */
    method Verify(kek: Kek) returns (ok: bool)
      ensures ok <==> AllBound(rows, kek) && rows != map[]
    {
      var left := rows.Keys;
      while left != {}
        invariant left <= rows.Keys
        invariant forall s | s in rows && s !in left :: Bound(rows[s], kek, s)
        decreases |left|
      {
        var s :| s in left;
        if Decrypt(kek, rows[s], AadOf(s)).None? {
          return false;
        }
        left := left - {s};
      }
      ok := |rows| != 0;
    }

    /** One run of the tool. */
    method Migrate(oldKek: Kek, newKek: Kek, dryRun: bool) returns (outcome: Outcome)
      modifies this
      ensures outcome.Aborted? <==> !AllReadable(old(rows), oldKek, newKek)
      ensures outcome.Aborted? ==>
                outcome.unreadable == set s | s in old(rows) && ReadAs(old(rows)[s], oldKek, newKek, AadOf(s)).None?
      ensures outcome.Aborted? || outcome.DryRun? || outcome.NothingToDo? ==> rows == old(rows)
      ensures outcome.DryRun? <==> AllReadable(old(rows), oldKek, newKek) && dryRun
      ensures outcome.NothingToDo? <==> AllReadable(old(rows), oldKek, newKek) && !dryRun && AllBound(old(rows), newKek)
      ensures outcome.NothingToDo? || outcome.Migrated? ==> Rekeyed(old(rows), oldKek, newKek, rows)
      ensures !outcome.VerifyFailed?
    {
      var todo, skipped, failed := Plan(oldKek, newKek);
      PlanDecides(rows, oldKek, newKek, todo, failed);
      hide AllReadable, AllBound, Rekeyed, ReadAs, Decrypt, AadOf, PlanCovers;
      if |failed| > 0 {
        return Aborted(failed);
      }
      assert failed == {};
      if dryRun {
        return DryRun;
      }
      if |todo| == 0 {
        assert todo == map[];
        return NothingToDo;
      }
      Rewrite(todo);
      var ok := Verify(newKek);
      if !ok {
        return VerifyFailed;
      }
      outcome := Migrated(|todo|);
    }
  }

  /** What the plan says about the table. */
  lemma PlanDecides(t: Table, oldKek: Kek, newKek: Kek, todo: map<Slot, Ciphertext>, failed: set<Slot>)
    requires PlanCovers(t, oldKek, newKek, t.Keys, todo, failed)
    ensures failed == set s | s in t && ReadAs(t[s], oldKek, newKek, AadOf(s)).None?
    ensures failed == {} <==> AllReadable(t, oldKek, newKek)
    ensures failed == {} ==> (todo == map[] <==> AllBound(t, newKek))
    ensures failed == {} ==> Rekeyed(t, oldKek, newKek, t + todo) && AllBound(t + todo, newKek)
    ensures todo.Keys <= t.Keys && (todo != map[] ==> t + todo != map[])
    ensures todo == map[] ==> t + todo == t
  {
    hide AadOf;
    if todo != map[] {
      var s :| s in todo;
      assert s in t + todo;
    }
  }

  // ----- consequences -----

  /** A run leaves every row bound under the new key. */
  lemma RekeyedIsBound(t: Table, oldKek: Kek, newKek: Kek, t': Table)
    requires Rekeyed(t, oldKek, newKek, t')
    ensures AllBound(t', newKek)
  {
    hide AadOf;
  }

  /** A second run finds nothing to do. */
  lemma SecondRunIsIdle(t: Table, oldKek: Kek, newKek: Kek, t': Table, t'': Table)
    requires Rekeyed(t, oldKek, newKek, t') && Rekeyed(t', oldKek, newKek, t'')
    ensures t'' == t'
  {
    hide AadOf;
    RekeyedIsBound(t, oldKek, newKek, t');
  }

  /** A ciphertext copied to another row does not open there. */
  lemma MovedValueFails(c: Ciphertext, kek: Kek, home: Slot, other: Slot)
    requires ProjectText(home.project) && ProjectText(other.project) && home != other
    requires Bound(c, kek, home)
    ensures !Bound(c, kek, other)
    ensures forall newKek :: ReadAs(c, kek, newKek, AadOf(other)).None?
  {
    EnvAadInjective(home, other);
    EnvAadInjective(other, home);
  }

  /** Legacy or bound, under one key. */
  ghost predicate Corpus(t: Table, kek: Kek) {
    forall s | s in t :: t[s].Sealed? && t[s].kek == kek && (t[s].aad == AadOf(s) || t[s].aad == NO_AAD)
  }

  /** The plaintexts a corpus stands for. */
  ghost function Plain(t: Table): map<Slot, Plaintext> {
    map s | s in t && t[s].Sealed? :: t[s].plaintext
  }

  /** From any mix of legacy and bound rows, a run can be made, and it keeps every plaintext. */
  lemma CorpusMigrates(t: Table, oldKek: Kek, newKek: Kek)
    requires Corpus(t, oldKek)
    ensures AllReadable(t, oldKek, newKek)
    ensures forall t' | Rekeyed(t, oldKek, newKek, t') :: Corpus(t', newKek) && AllBound(t', newKek) && Plain(t') == Plain(t)
  {
    hide AadOf;
    forall t' | Rekeyed(t, oldKek, newKek, t')
      ensures Corpus(t', newKek) && AllBound(t', newKek) && Plain(t') == Plain(t)
    {
      RekeyedIsBound(t, oldKek, newKek, t');
    }
  }

  /** Successive rotations: `ts[i + 1]` is what re-keying `ts[i]` from `keks[i]` to `keks[i + 1]` leaves. */
  ghost predicate Rotations(ts: seq<Table>, keks: seq<Kek>) {
    && |ts| == |keks| >= 1
    && forall i | 0 <= i < |ts| - 1 :: Rekeyed(ts[i], keks[i], keks[i + 1], ts[i + 1])
  }

  /** Any number of rotations keeps every plaintext and leaves all rows bound under the latest key. */
  lemma {:induction false} RotationsCompose(ts: seq<Table>, keks: seq<Kek>, n: nat)
    requires Rotations(ts, keks) && n < |ts| && Corpus(ts[0], keks[0])
    ensures Corpus(ts[n], keks[n]) && Plain(ts[n]) == Plain(ts[0])
    ensures n > 0 ==> AllBound(ts[n], keks[n])
    decreases n
  {
    hide Corpus, Plain, Rekeyed, AllBound;
    if n > 0 {
      RotationsCompose(ts, keks, n - 1);
      assert Rekeyed(ts[n - 1], keks[n - 1], keks[n], ts[n]);
      CorpusMigrates(ts[n - 1], keks[n - 1], keks[n]);
    }
  }

  /** Once rotated away, the old key opens nothing. */
  lemma OldKeyIsRetired(t: Table, oldKek: Kek, newKek: Kek, t': Table, s: Slot, aad: string)
    requires Rekeyed(t, oldKek, newKek, t') && s in t' && oldKek != newKek
    ensures Decrypt(oldKek, t'[s], aad).None?
  {
    hide AadOf;
    RekeyedIsBound(t, oldKek, newKek, t');
  }

  /** The legacy format has no home: a legacy value copied to another row is adopted there. */
  lemma LegacyValueIsAdopted(plaintext: Plaintext, oldKek: Kek, newKek: Kek, nonce: nat, other: Slot)
    requires ProjectText(other.project)
    ensures ReadAs(Encrypt(oldKek, plaintext, NO_AAD, nonce), oldKek, newKek, AadOf(other)) == Some(plaintext)
  {
    EnvAadInjective(other, other);
  }
}
