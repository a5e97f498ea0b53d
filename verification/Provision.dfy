/**
 The Postgres provisioner (internal/provision/postgres.go): a role and a database per project, named
 after the slug, created, rotated and dropped without touching any other project's.
 */
module Provision {
  import opened Squid
  import opened SquidMeaning

  type Password = nat

  /** A database: its owner, and its contents up to identity. */
  datatype Database = Database(owner: string, contents: nat)

  datatype Cluster = Cluster(roles: map<string, Password>, databases: map<string, Database>, grants: set<(string, string)>)

  /** DATABASE_URL, field by field. */
  datatype Url = Url(user: string, password: Password, database: string)

  const EMPTY_CONTENTS := 0

  /** '-' to '_' under a fixed prefix: the same name the proxy's ACLs are built from. */
  function DbIdentFor(slug: string): string { ProjName(slug) }

  function Provisioned(c: Cluster, slug: string, password: Password): Cluster {
    var n := DbIdentFor(slug);
    Cluster(c.roles[n := password],
            c.databases[n := if n in c.databases then c.databases[n].(owner := n) else Database(n, EMPTY_CONTENTS)],
            c.grants + {(n, n)})
  }

  function Deprovisioned(c: Cluster, slug: string): Cluster {
    var n := DbIdentFor(slug);
    Cluster(c.roles - {n}, c.databases - {n}, set g | g in c.grants && g.0 != n && g.1 != n)
  }

  class PostgresServer {
    var roles: map<string, Password>
    var databases: map<string, Database>
    var grants: set<(string, string)>

    ghost function Value(): Cluster
      reads this
    {
      Cluster(roles, databases, grants)
    }

    constructor ()
      ensures Value() == Cluster(map[], map[], {})
    {
      roles, databases, grants := map[], map[], {};
    }

    /** Role, database, grant; an existing role gets the new password, an existing database keeps its contents. */
    method Provision(slug: string, password: Password) returns (url: Url)
      modifies this
      ensures Value() == Provisioned(old(Value()), slug, password)
      ensures LogsIn(Value(), url) && url == Url(DbIdentFor(slug), password, DbIdentFor(slug))
    {
      var name := DbIdentFor(slug);
      roles := roles[name := password];
      if name !in databases {
        databases := databases[name := Database(name, EMPTY_CONTENTS)];
      } else {
        databases := databases[name := databases[name].(owner := name)];
      }
      grants := grants + {(name, name)};
      url := Url(name, password, name);
    }

    method Deprovision(slug: string)
      modifies this
      ensures Value() == Deprovisioned(old(Value()), slug)
    {
      var name := DbIdentFor(slug);
      databases := databases - {name};
      roles := roles - {name};
      grants := set g | g in grants && g.0 != name && g.1 != name;
    }
  }

  /** The URL's role exists with that password and owns the URL's database. */
  ghost predicate LogsIn(c: Cluster, url: Url) {
    && url.user in c.roles && c.roles[url.user] == url.password
    && url.database in c.databases && c.databases[url.database].owner == url.user
    && (url.database, url.user) in c.grants
  }

  datatype Op = Up(slug: string, password: Password) | Down(slug: string)

  function Perform(c: Cluster, op: Op): Cluster {
    match op
    case Up(slug, password) => Provisioned(c, slug, password)
    case Down(slug) => Deprovisioned(c, slug)
  }

  function PerformAll(c: Cluster, ops: seq<Op>): Cluster
    decreases |ops|
  {
    if ops == [] then c else PerformAll(Perform(c, ops[0]), ops[1..])
  }

  /** Whatever happens to other projects, a project's URL keeps working and its data stays. */
  lemma {:induction false} OtherProjectsDoNotInterfere(c: Cluster, ops: seq<Op>, slug: string, url: Url)
    requires SlugText(slug) && url.user == url.database == DbIdentFor(slug) && LogsIn(c, url)
    requires forall op | op in ops :: SlugText(op.slug) && op.slug != slug
    ensures LogsIn(PerformAll(c, ops), url)
    ensures PerformAll(c, ops).databases[url.database] == c.databases[url.database]
    decreases |ops|
  {
    if ops != [] {
      var op := ops[0];
      assert op in ops;
      if DbIdentFor(op.slug) == DbIdentFor(slug) { ProjNameInjective(op.slug, slug); }
      assert LogsIn(Perform(c, op), url) && Perform(c, op).databases[url.database] == c.databases[url.database];
      hide Perform, LogsIn, DbIdentFor;
      OtherProjectsDoNotInterfere(Perform(c, op), ops[1..], slug, url);
    }
  }

  /** Provisioning twice rotates the password and nothing else. */
  lemma ReprovisionRotates(c: Cluster, slug: string, first: Password, second: Password)
    ensures Provisioned(Provisioned(c, slug, first), slug, second) == Provisioned(c, slug, second)
    ensures DbIdentFor(slug) in c.databases ==>
              Provisioned(c, slug, first).databases[DbIdentFor(slug)].contents == c.databases[DbIdentFor(slug)].contents
    ensures first != second ==> !LogsIn(Provisioned(Provisioned(c, slug, first), slug, second), Url(DbIdentFor(slug), first, DbIdentFor(slug)))
  {
  }

  /** Deprovisioning undoes a first provisioning. */
  lemma DeprovisionUndoes(c: Cluster, slug: string, password: Password)
    requires DbIdentFor(slug) !in c.roles && DbIdentFor(slug) !in c.databases
    requires forall g | g in c.grants :: g.0 != DbIdentFor(slug) && g.1 != DbIdentFor(slug)
    ensures Deprovisioned(Provisioned(c, slug, password), slug) == c
  {
    hide DbIdentFor;
    var d := Deprovisioned(Provisioned(c, slug, password), slug);
    assert d.roles == c.roles && d.databases == c.databases && d.grants == c.grants;
  }
}
