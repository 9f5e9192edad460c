/** The development CA: what its commands write, and the services that read the files while they change. */
module CaRotation {
  import opened Text

  /** A directory under the root, by its path components. */
  type Name = seq<string>

  // ---------------------------------------------------------------- directories

  /** `_service_dirs` looks for `tls.crt` one level down, and one level down in `clients`. */
  predicate Listed(n: Name) {
    |n| == 1 || (|n| == 2 && n[0] == "clients")
  }

  /** The components of a relative path. */
  function Components(path: string): seq<string>
    decreases |path|
  {
    var i := Find(path, "/", 0);
    if i < 0 then [path] else [path[..i]] + Components(path[i + 1..])
  }

  /** Where a path leads from a directory; `None` is outside the root. */
  function Walk(at: Name, parts: seq<string>): Option<Name>
    decreases |parts|
  {
    if parts == [] then Some(at)
    else if parts[0] == "" || parts[0] == "." then Walk(at, parts[1..])
    else if parts[0] == ".." then if at == [] then None else Walk(at[..|at| - 1], parts[1..])
    else Walk(at + [parts[0]], parts[1..])
  }

  /** `root / "clients" / name`, as the file system resolves it. */
  function ClientDir(name: string): Option<Name> {
    if name != "" && name[0] == '/' then None else Walk(["clients"], Components(name))
  }

  /** The client's directory is one the other commands find again, and not the CA's own. */
  predicate InReach(name: string) {
    ClientDir(name).Some? && Listed(ClientDir(name).value) && ClientDir(name).value != ["ca"]
  }

  lemma OneComponent(name: string)
    requires '/' !in name
    ensures Components(name) == [name]
  {
    forall j: nat ensures !At(name, j, "/") {
      if j < |name| { AtSlash(name, j); }
    }
    FindNone(name, "/", 0);
  }

  /** A name without a slash, other than `..`, gets a directory of its own in `clients` (or `clients` itself for `` and `.`). */
  lemma PlainNames(name: string)
    requires '/' !in name && name != ".."
    ensures InReach(name) && ClientDir(name) == Some(if name == "" || name == "." then ["clients"] else ["clients", name])
  {
    OneComponent(name);
    var none: seq<string> := [];
    assert [name][1..] == none && ["clients"] + [name] == ["clients", name];
    assert name != "" ==> name[0] in name;
    assert Walk(["clients", name], none) == Some(["clients", name]) && Walk(["clients"], none) == Some(["clients"]);
  }

  predicate PlainPart(part: string) {
    '/' !in part && part != "" && part != "." && part != ".."
  }

  lemma TwoComponents(x: string, y: string)
    requires '/' !in x && '/' !in y
    ensures Components(x + "/" + y) == [x, y]
  {
    var path := x + "/" + y;
    forall j: nat | j < |x| ensures !At(path, j, "/") {
      AtSlash(path, j);
      assert path[j] == x[j];
    }
    AtSlash(path, |x|);
    FindIs(path, "/", 0, |x|);
    assert path[..|x|] == x && path[|x| + 1..] == y;
    OneComponent(y);
  }

  lemma AtSlash(path: string, j: nat)
    requires j < |path|
    ensures At(path, j, "/") <==> path[j] == '/'
  {
    assert path[j..j + 1] == [path[j]];
  }

  /** A slash takes the directory where no command looks for it. */
  lemma SlashNames(x: string, y: string)
    requires PlainPart(x) && PlainPart(y)
    ensures ClientDir(x + "/" + y) == Some(["clients", x, y]) && !InReach(x + "/" + y)
  {
    TwoComponents(x, y);
    var none: seq<string> := [];
    assert [x, y][1..] == [y] && [y][1..] == none;
    assert ["clients"] + [x] == ["clients", x] && ["clients", x] + [y] == ["clients", x, y];
    assert (x + "/" + y)[0] == x[0];
    assert Walk(["clients", x], [y]) == Walk(["clients", x, y], none);
  }

  /** `../` takes another directory's place, and `..` the root's own. */
  lemma ParentNames(y: string)
    requires PlainPart(y)
    ensures ClientDir("../" + y) == Some([y]) && (y != "ca" ==> InReach("../" + y))
    ensures ClientDir("..") == Some([]) && !InReach("..")
  {
    hide ClientDir, Components, Walk;
    SiblingDir(y);
    RootDir();
  }

  lemma SiblingDir(y: string)
    requires PlainPart(y)
    ensures ClientDir("../" + y) == Some([y])
  {
    TwoComponents("..", y);
    assert ".." + "/" + y == "../" + y;
    var none: seq<string> := [];
    assert ["..", y][1..] == [y] && [y][1..] == none;
    assert ["clients"][..0] == none && none + [y] == [y];
    assert Walk(none, [y]) == Walk([y], none);
  }

  lemma RootDir()
    ensures ClientDir("..") == Some([])
  {
    OneComponent("..");
    var none: seq<string> := [];
    assert [".."][1..] == none && ["clients"][..0] == none;
    assert Walk(["clients"], [".."]) == Walk(none, none);
  }

  // ---------------------------------------------------------------- certificates and files

  /** A CA certificate: the name it signs under and its key. */
  datatype Ca = Ca(name: string, key: nat)

  /**
   * A certificate of a service or client: whose it is, its subject alternative names, whether it may serve, the CA name it
   * gives, the key that signed it, and its own key.
   */
  datatype Leaf = Leaf(subject: string, names: set<string>, server: bool, issuer: string, signer: nat, key: nat)

  /** The CA a leaf verifies against: the one with the name it gives and the key that signed it. */
  function CaOf(leaf: Leaf): Ca {
    Ca(leaf.issuer, leaf.signer)
  }

  predicate Trusts(bundle: seq<Ca>, leaf: Leaf) {
    CaOf(leaf) in bundle
  }

  datatype Disk = Disk(
    ca: Option<Ca>, caKey: Option<nat>, next: Option<Ca>, nextKey: Option<nat>, previous: Option<Ca>,
    crt: map<Name, Leaf>, key: map<Name, nat>, bundle: map<Name, seq<Ca>>)

  const EMPTY := Disk(None, None, None, None, None, map[], map[], map[])

  /** One file written, moved or removed; each is atomic for a reader. */
  datatype Write =
    | CaKey(k: nat) | CaCrt(c: Ca) | NextKey(k: nat) | NextCrt(c: Ca)
    | KeepPrevious | PromoteCrt | PromoteKey | DropPrevious
    | TlsCrt(n: Name, leaf: Leaf) | TlsKey(n: Name, k: nat) | CaBundle(n: Name, b: seq<Ca>)

  function Apply(d: Disk, w: Write): Disk {
    match w
    case CaKey(k) => d.(caKey := Some(k))
    case CaCrt(c) => d.(ca := Some(c))
    case NextKey(k) => d.(nextKey := Some(k))
    case NextCrt(c) => d.(next := Some(c))
    case KeepPrevious => d.(previous := d.ca)
    case PromoteCrt => d.(ca := d.next, next := None)
    case PromoteKey => d.(caKey := d.nextKey, nextKey := None)
    case DropPrevious => d.(previous := None)
    case TlsCrt(n, leaf) => d.(crt := d.crt[n := leaf])
    case TlsKey(n, k) => d.(key := d.key[n := k])
    case CaBundle(n, b) => d.(bundle := d.bundle[n := b])
  }

  function ApplyAll(d: Disk, ws: seq<Write>): Disk
    decreases |ws|
  {
    if ws == [] then d else ApplyAll(Apply(d, ws[0]), ws[1..])
  }

  function OneOf<T>(o: Option<T>): seq<T> {
    if o.Some? then [o.value] else []
  }

  /** `_ca_bundle`: the signing CA, plus the one being introduced and the one being retired. */
  function BundleOf(d: Disk): seq<Ca> {
    OneOf(d.ca) + OneOf(d.next) + OneOf(d.previous)
  }

  // ---------------------------------------------------------------- commands and what they write

  /** What a command gets from outside: a new key for each directory, and the extra names of `SMO_MTLS_NAMES`. */
  datatype Supply = Supply(key: Name -> nat, extra: set<string>)

  datatype Command =
    | Init(services: seq<string>, servers: set<string>, ca: Ca, supply: Supply)
    | Renew(dirs: seq<Name>, supply: Supply)
    | NewClient(name: string, key: nat)
    | Trust(dirs: seq<Name>, ca: Ca)
    | Issue(dirs: seq<Name>, supply: Supply)
    | Retire(dirs: seq<Name>)

  /** `make_leaf`: a server certificate has `localhost`, the loopback addresses and the extra names besides its own. */
  function MakeLeaf(c: Ca, caKey: nat, subject: string, key: nat, server: bool, extra: set<string>): Leaf {
    var names := if server then {subject, "localhost", "127.0.0.1", "::1"} + extra else {subject};
    Leaf(subject, names, server, c.name, caKey, key)
  }

  /** What `renew` takes for a server's certificate. */
  predicate LooksServer(leaf: Leaf) {
    "localhost" in leaf.names
  }

  /** A certificate made by `make_leaf` looks like a server's when it is one, or when its subject is called `localhost`. */
  predicate Genuine(leaf: Leaf) {
    LooksServer(leaf) <==> (leaf.server || leaf.subject == "localhost")
  }

  /** `_write_leaf` of one directory: certificate, key, then bundle. */
  function WriteLeaf(n: Name, leaf: Leaf, bundle: seq<Ca>): seq<Write> {
    [TlsCrt(n, leaf), TlsKey(n, leaf.key), CaBundle(n, bundle)]
  }

  function WriteLeaves(dirs: seq<Name>, leaves: map<Name, Leaf>, bundle: seq<Ca>): seq<Write>
    requires forall n :: n in dirs ==> n in leaves
  {
    if dirs == [] then [] else WriteLeaf(dirs[0], leaves[dirs[0]], bundle) + WriteLeaves(dirs[1..], leaves, bundle)
  }

  function WriteBundles(dirs: seq<Name>, bundle: seq<Ca>): seq<Write> {
    if dirs == [] then [] else [CaBundle(dirs[0], bundle)] + WriteBundles(dirs[1..], bundle)
  }

  /** The new leaf of every directory: its name and its kind are read back from the old certificate. */
  function Renewed(c: Ca, caKey: nat, crt: map<Name, Leaf>, supply: Supply): map<Name, Leaf> {
    map n | n in crt :: MakeLeaf(c, caKey, crt[n].subject, supply.key(n), LooksServer(crt[n]), supply.extra)
  }

  /** The directories of the services. */
  function DirsOf(services: seq<string>): (dirs: seq<Name>)
    ensures |dirs| == |services| && forall i :: 0 <= i < |dirs| ==> dirs[i] == [services[i]]
  {
    if services == [] then [] else [[services[0]]] + DirsOf(services[1..])
  }

  function FirstLeaves(c: Ca, services: seq<string>, servers: set<string>, supply: Supply): map<Name, Leaf> {
    map n | n in DirsOf(services) :: MakeLeaf(c, c.key, n[0], supply.key(n), n[0] in servers, supply.extra)
  }

  function ClientLeaf(d: Disk, name: string, key: nat): Leaf
    requires d.ca.Some? && d.caKey.Some?
  {
    MakeLeaf(d.ca.value, d.caKey.value, name, key, false, {})
  }

  /**
   * The state a finished command leaves: one signing CA with its key, and every directory that is found again complete,
   * coherent and up to date.
   */
  ghost predicate Settled(d: Disk) {
    && d.ca.Some? && d.caKey == Some(d.ca.value.key)
    && (d.next.Some? ==> d.nextKey == Some(d.next.value.key))
    && (forall n :: Listed(n) ==> (n in d.crt <==> n in d.key) && (n in d.crt <==> n in d.bundle))
    && (forall n :: Listed(n) && n in d.crt ==> Whole(d, n))
  }

  ghost predicate Whole(d: Disk, n: Name) {
    && d.ca.Some? && n in d.crt && n in d.key && n in d.bundle
    && CaOf(d.crt[n]) == d.ca.value && d.key[n] == d.crt[n].key && d.bundle[n] == BundleOf(d) && Genuine(d.crt[n])
  }

  /** `dirs` is what `_service_dirs` finds, in some order. */
  ghost predicate Lists(dirs: seq<Name>, d: Disk) {
    && (forall n :: n in dirs <==> n in d.crt && Listed(n))
    && forall i, j :: 0 <= i < j < |dirs| ==> dirs[i] != dirs[j]
  }

  ghost predicate Callable(d: Disk, c: Command) {
    match c
    case Init(services, _, _, _) => (d == EMPTY || Settled(d)) && "ca" !in services
    case NewClient(name, _) => Settled(d) && InReach(name)
    case _ => Settled(d) && Lists(c.dirs, d)
  }

  function Promoted(d: Disk): Disk {
    d.(previous := d.ca, ca := d.next, next := None, caKey := d.nextKey, nextKey := None)
  }

  ghost function Plan(d: Disk, c: Command): seq<Write>
    requires Callable(d, c)
  {
    match c
    case Init(services, servers, ca, supply) =>
      if d.ca.Some? then []
      else [CaKey(ca.key), CaCrt(ca)] + WriteLeaves(DirsOf(services), FirstLeaves(ca, services, servers, supply), [ca])
    case Renew(dirs, supply) =>
      WriteLeaves(dirs, Renewed(d.ca.value, d.caKey.value, d.crt, supply), BundleOf(d))
    case NewClient(name, key) =>
      WriteLeaf(ClientDir(name).value, ClientLeaf(d, name, key), BundleOf(d))
    case Trust(dirs, ca) =>
      if d.next.Some? then [] else [NextKey(ca.key), NextCrt(ca)] + WriteBundles(dirs, BundleOf(d.(next := Some(ca))))
    case Issue(dirs, supply) =>
      if d.next.None? then []
      else [KeepPrevious, PromoteCrt, PromoteKey]
           + WriteLeaves(dirs, Renewed(d.next.value, d.nextKey.value, d.crt, supply), BundleOf(Promoted(d)))
    case Retire(dirs) =>
      if d.previous.None? then [] else [DropPrevious] + WriteBundles(dirs, BundleOf(d.(previous := None)))
  }

  lemma {:induction false} ApplyPlus(d: Disk, a: seq<Write>, b: seq<Write>)
    ensures ApplyAll(d, a + b) == ApplyAll(ApplyAll(d, a), b)
    decreases |a|
  {
    if a == [] {
      assert a + b == b;
    } else {
      assert (a + b)[1..] == a[1..] + b;
      ApplyPlus(Apply(d, a[0]), a[1..], b);
    }
  }

  /** `d1` is `d0` with the directories of `leaves` rewritten, and nothing else touched. */
  ghost predicate Rewritten(d0: Disk, d1: Disk, dirs: seq<Name>, leaves: map<Name, Leaf>, bundle: seq<Ca>)
    requires forall n :: n in dirs ==> n in leaves
  {
    && SameCa(d0, d1)
    && (forall n :: n in d1.crt <==> n in d0.crt || n in dirs)
    && (forall n :: n in d1.key <==> n in d0.key || n in dirs)
    && (forall n :: n in d1.bundle <==> n in d0.bundle || n in dirs)
    && (forall n :: n in d1.crt ==> d1.crt[n] == if n in dirs then leaves[n] else d0.crt[n])
    && (forall n :: n in d1.key ==> d1.key[n] == if n in dirs then leaves[n].key else d0.key[n])
    && (forall n :: n in d1.bundle ==> d1.bundle[n] == if n in dirs then bundle else d0.bundle[n])
  }

  predicate SameCa(d0: Disk, d1: Disk) {
    d1.ca == d0.ca && d1.caKey == d0.caKey && d1.next == d0.next && d1.nextKey == d0.nextKey && d1.previous == d0.previous
  }

  lemma Twice(d: Disk, v: Write, w: Write, ws: seq<Write>)
    ensures ApplyAll(d, [v, w] + ws) == ApplyAll(Apply(Apply(d, v), w), ws)
  {
    hide Apply;
    assert ([v, w] + ws)[1..] == [w] + ws && ([w] + ws)[1..] == ws;
  }

  lemma Thrice(d: Disk, u: Write, v: Write, w: Write)
    ensures ApplyAll(d, [u, v, w]) == Apply(Apply(Apply(d, u), v), w)
  {
    hide Apply;
    assert [u, v, w] == [u, v] + [w];
    Twice(d, u, v, [w]);
    assert [w][1..] == [];
  }

  lemma ApplyLeaf(d: Disk, n: Name, leaf: Leaf, bundle: seq<Ca>)
    ensures ApplyAll(d, WriteLeaf(n, leaf, bundle))
         == d.(crt := d.crt[n := leaf], key := d.key[n := leaf.key], bundle := d.bundle[n := bundle])
  {
    hide ApplyAll;
    Thrice(d, TlsCrt(n, leaf), TlsKey(n, leaf.key), CaBundle(n, bundle));
    var d1 := d.(crt := d.crt[n := leaf]);
    var d2 := d1.(key := d1.key[n := leaf.key]);
    assert Apply(d, TlsCrt(n, leaf)) == d1;
    assert Apply(d1, TlsKey(n, leaf.key)) == d2;
  }

  lemma {:induction false} ApplyLeaves(d: Disk, dirs: seq<Name>, leaves: map<Name, Leaf>, bundle: seq<Ca>)
    requires forall n :: n in dirs ==> n in leaves
    ensures Rewritten(d, ApplyAll(d, WriteLeaves(dirs, leaves, bundle)), dirs, leaves, bundle)
    decreases |dirs|
  {
    if dirs != [] {
      var n, rest := dirs[0], dirs[1..];
      ApplyPlus(d, WriteLeaf(n, leaves[n], bundle), WriteLeaves(rest, leaves, bundle));
      ApplyLeaf(d, n, leaves[n], bundle);
      var d1 := d.(crt := d.crt[n := leaves[n]], key := d.key[n := leaves[n].key], bundle := d.bundle[n := bundle]);
      ApplyLeaves(d1, rest, leaves, bundle);
      RewrittenStep(d, d1, ApplyAll(d1, WriteLeaves(rest, leaves, bundle)), dirs, leaves, bundle);
    }
  }

  lemma RewrittenStep(d: Disk, d1: Disk, d2: Disk, dirs: seq<Name>, leaves: map<Name, Leaf>, bundle: seq<Ca>)
    requires dirs != [] && (forall n :: n in dirs ==> n in leaves)
    requires var n := dirs[0];
      d1 == d.(crt := d.crt[n := leaves[n]], key := d.key[n := leaves[n].key], bundle := d.bundle[n := bundle])
    requires Rewritten(d1, d2, dirs[1..], leaves, bundle)
    ensures Rewritten(d, d2, dirs, leaves, bundle)
  {
    assert forall x :: x in dirs <==> x == dirs[0] || x in dirs[1..];
  }

  lemma {:induction false} ApplyBundles(d: Disk, dirs: seq<Name>, bundle: seq<Ca>)
    ensures var d1 := ApplyAll(d, WriteBundles(dirs, bundle));
      && d1 == d.(bundle := d1.bundle) && (forall n :: n in d1.bundle <==> n in d.bundle || n in dirs)
      && forall n :: n in d1.bundle ==> d1.bundle[n] == if n in dirs then bundle else d.bundle[n]
    decreases |dirs|
  {
    if dirs != [] {
      var w := [CaBundle(dirs[0], bundle)];
      ApplyPlus(d, w, WriteBundles(dirs[1..], bundle));
      assert w[1..] == [];
      ApplyBundles(Apply(d, w[0]), dirs[1..], bundle);
      assert forall x :: x in dirs <==> x == dirs[0] || x in dirs[1..];
    }
  }

  // ---------------------------------------------------------------- every finished command settles the disk

  /** Rewriting settles a disk when the leaves are from its CA and what is not rewritten was settled before. */
  lemma RewritingSettles(d0: Disk, d1: Disk, dirs: seq<Name>, leaves: map<Name, Leaf>)
    requires (forall n :: n in dirs ==> n in leaves) && Rewritten(d0, d1, dirs, leaves, BundleOf(d0))
    requires d0.ca.Some? && d0.caKey == Some(d0.ca.value.key) && (d0.next.Some? ==> d0.nextKey == Some(d0.next.value.key))
    requires forall n :: Listed(n) ==> (n in d0.crt <==> n in d0.key) && (n in d0.crt <==> n in d0.bundle)
    requires forall n :: n in dirs ==> CaOf(leaves[n]) == d0.ca.value && Genuine(leaves[n])
    requires forall n :: Listed(n) && n in d0.crt && n !in dirs ==> Whole(d0, n)
    ensures Settled(d1)
  {
    hide Listed, Genuine, CaOf;
    assert BundleOf(d1) == BundleOf(d0);
  }

  lemma MadeGenuine(c: Ca, caKey: nat, subject: string, key: nat, server: bool, extra: set<string>)
    ensures Genuine(MakeLeaf(c, caKey, subject, key, server, extra))
  {
  }

  lemma RenewedFits(c: Ca, d: Disk, supply: Supply, n: Name)
    requires n in d.crt
    ensures var r := Renewed(c, c.key, d.crt, supply); n in r && CaOf(r[n]) == c && Genuine(r[n])
  {
  }

  lemma FirstFits(c: Ca, services: seq<string>, servers: set<string>, supply: Supply)
    ensures var r := FirstLeaves(c, services, servers, supply);
      forall n :: n in DirsOf(services) ==> n in r && CaOf(r[n]) == c && Genuine(r[n])
  {
  }

  lemma InitSettles(d: Disk, c: Command)
    requires Callable(d, c) && c.Init? && d == EMPTY
    ensures Settled(ApplyAll(d, Plan(d, c)))
  {
    var leaves, dirs := FirstLeaves(c.ca, c.services, c.servers, c.supply), DirsOf(c.services);
    var d1 := d.(ca := Some(c.ca), caKey := Some(c.ca.key));
    Twice(d, CaKey(c.ca.key), CaCrt(c.ca), WriteLeaves(dirs, leaves, [c.ca]));
    FirstFits(c.ca, c.services, c.servers, c.supply);
    ApplyLeaves(d1, dirs, leaves, [c.ca]);
    assert BundleOf(d1) == [c.ca];
    hide ApplyAll, FirstLeaves, Genuine, Listed, BundleOf, WriteLeaves;
    RewritingSettles(d1, ApplyAll(d1, WriteLeaves(dirs, leaves, [c.ca])), dirs, leaves);
  }

  lemma RenewSettles(d: Disk, dirs: seq<Name>, supply: Supply)
    requires Settled(d) && Lists(dirs, d)
    ensures Settled(ApplyAll(d, Plan(d, Renew(dirs, supply))))
  {
    var leaves := Renewed(d.ca.value, d.caKey.value, d.crt, supply);
    ApplyLeaves(d, dirs, leaves, BundleOf(d));
    forall n | n in dirs ensures CaOf(leaves[n]) == d.ca.value && Genuine(leaves[n]) {
      RenewedFits(d.ca.value, d, supply, n);
    }
    hide ApplyAll, Renewed, Genuine;
    RewritingSettles(d, ApplyAll(d, WriteLeaves(dirs, leaves, BundleOf(d))), dirs, leaves);
  }

  lemma ClientSettles(d: Disk, name: string, key: nat)
    requires Settled(d) && InReach(name)
    ensures Settled(ApplyAll(d, Plan(d, NewClient(name, key))))
  {
    hide ClientDir, ApplyAll, WriteLeaf, BundleOf, Listed, LooksServer;
    var leaf, n := ClientLeaf(d, name, key), ClientDir(name).value;
    ApplyLeaf(d, n, leaf, BundleOf(d));
    MadeGenuine(d.ca.value, d.caKey.value, name, key, false, {});
    RewritingSettles(d, ApplyAll(d, WriteLeaf(n, leaf, BundleOf(d))), [n], map[n := leaf]);
  }

  lemma BundlesSettle(d0: Disk, d1: Disk, dirs: seq<Name>)
    requires d0.ca.Some? && d0.caKey == Some(d0.ca.value.key) && (d0.next.Some? ==> d0.nextKey == Some(d0.next.value.key))
    requires forall n :: Listed(n) ==> (n in d0.crt <==> n in d0.key) && (n in d0.crt <==> n in d0.bundle)
    requires forall n :: Listed(n) && n in d0.crt ==> CaOf(d0.crt[n]) == d0.ca.value && d0.key[n] == d0.crt[n].key && Genuine(d0.crt[n])
    requires (forall n :: n in dirs <==> n in d0.crt && Listed(n)) && d1 == d0.(bundle := d1.bundle)
    requires forall n :: n in d1.bundle <==> n in d0.bundle || n in dirs
    requires forall n :: n in d1.bundle && n in dirs ==> d1.bundle[n] == BundleOf(d0)
    ensures Settled(d1)
  {
    hide Listed, Genuine, CaOf;
    assert BundleOf(d1) == BundleOf(d0);
  }

  lemma TrustReached(d: Disk, dirs: seq<Name>, ca: Ca)
    requires Settled(d) && Lists(dirs, d) && d.next.None?
    ensures var d1 := d.(nextKey := Some(ca.key), next := Some(ca)); var f := ApplyAll(d, Plan(d, Trust(dirs, ca)));
      && f == d1.(bundle := f.bundle) && (forall n :: n in f.bundle <==> n in d.bundle || n in dirs)
      && forall n :: n in f.bundle ==> f.bundle[n] == if n in dirs then BundleOf(d1) else d.bundle[n]
  {
    var d1 := d.(nextKey := Some(ca.key), next := Some(ca));
    Twice(d, NextKey(ca.key), NextCrt(ca), WriteBundles(dirs, BundleOf(d1)));
    assert BundleOf(d1) == BundleOf(d.(next := Some(ca)));
    ApplyBundles(d1, dirs, BundleOf(d1));
  }

  lemma TrustSettles(d: Disk, dirs: seq<Name>, ca: Ca)
    requires Settled(d) && Lists(dirs, d)
    ensures Settled(ApplyAll(d, Plan(d, Trust(dirs, ca))))
  {
    if d.next.None? {
      TrustReached(d, dirs, ca);
      var f := ApplyAll(d, Plan(d, Trust(dirs, ca)));
      hide ApplyAll, Plan, BundleOf;
      BundlesSettle(d.(nextKey := Some(ca.key), next := Some(ca)), f, dirs);
    }
  }

  lemma IssueReached(d: Disk, dirs: seq<Name>, supply: Supply)
    requires Settled(d) && Lists(dirs, d) && d.next.Some?
    ensures var p := Promoted(d); var leaves := Renewed(d.next.value, d.nextKey.value, d.crt, supply);
      Rewritten(p, ApplyAll(d, Plan(d, Issue(dirs, supply))), dirs, leaves, BundleOf(p))
  {
    IssuePlan(d, dirs, supply);
    hide *;
    var p, leaves := Promoted(d), Renewed(d.next.value, d.nextKey.value, d.crt, supply);
    var head := [KeepPrevious, PromoteCrt, PromoteKey];
    ApplyPlus(d, head, WriteLeaves(dirs, leaves, BundleOf(p)));
    ApplyLeaves(p, dirs, leaves, BundleOf(p));
  }

  lemma IssuePlan(d: Disk, dirs: seq<Name>, supply: Supply)
    requires Settled(d) && Lists(dirs, d) && d.next.Some?
    ensures d.nextKey.Some? && forall n :: n in dirs ==> n in Renewed(d.next.value, d.nextKey.value, d.crt, supply)
    ensures Plan(d, Issue(dirs, supply)) == [KeepPrevious, PromoteCrt, PromoteKey]
      + WriteLeaves(dirs, Renewed(d.next.value, d.nextKey.value, d.crt, supply), BundleOf(Promoted(d)))
    ensures ApplyAll(d, [KeepPrevious, PromoteCrt, PromoteKey]) == Promoted(d)
  {
    Thrice(d, KeepPrevious, PromoteCrt, PromoteKey);
    hide ApplyAll, WriteLeaves, Listed, BundleOf;
  }

  lemma IssueSettles(d: Disk, dirs: seq<Name>, supply: Supply)
    requires Settled(d) && Lists(dirs, d)
    ensures Settled(ApplyAll(d, Plan(d, Issue(dirs, supply))))
  {
    if d.next.Some? {
      IssueReached(d, dirs, supply);
      var leaves := Renewed(d.next.value, d.nextKey.value, d.crt, supply);
      forall n | n in dirs ensures CaOf(leaves[n]) == d.next.value && Genuine(leaves[n]) {
        RenewedFits(d.next.value, d, supply, n);
      }
      var f := ApplyAll(d, Plan(d, Issue(dirs, supply)));
      hide ApplyAll, Plan, Renewed, Genuine, BundleOf;
      RewritingSettles(Promoted(d), f, dirs, leaves);
    }
  }

  lemma RetireReached(d: Disk, dirs: seq<Name>)
    requires Settled(d) && Lists(dirs, d) && d.previous.Some?
    ensures var d1 := d.(previous := None); var f := ApplyAll(d, Plan(d, Retire(dirs)));
      && f == d1.(bundle := f.bundle) && (forall n :: n in f.bundle <==> n in d.bundle || n in dirs)
      && forall n :: n in f.bundle ==> f.bundle[n] == if n in dirs then BundleOf(d1) else d.bundle[n]
  {
    var d1 := d.(previous := None);
    ApplyPlus(d, [DropPrevious], WriteBundles(dirs, BundleOf(d1)));
    assert [DropPrevious][1..] == [];
    ApplyBundles(d1, dirs, BundleOf(d1));
  }

  lemma RetireSettles(d: Disk, dirs: seq<Name>)
    requires Settled(d) && Lists(dirs, d)
    ensures Settled(ApplyAll(d, Plan(d, Retire(dirs))))
  {
    if d.previous.Some? {
      RetireReached(d, dirs);
      var f := ApplyAll(d, Plan(d, Retire(dirs)));
      hide ApplyAll, Plan, BundleOf;
      BundlesSettle(d.(previous := None), f, dirs);
    }
  }

  /** Run to its end, a command leaves every listed directory with a certificate signed by the CA, its own key and the whole bundle. */
  lemma CommandSettles(d: Disk, c: Command)
    requires Callable(d, c)
    ensures Settled(ApplyAll(d, Plan(d, c)))
  {
    hide ApplyAll, Plan, Settled, Lists, InReach;
    match c
    case Init(_, _, _, _) => if d == EMPTY { InitSettles(d, c); } else { KeptSettles(d, c); }
    case Renew(dirs, supply) => RenewSettles(d, dirs, supply);
    case NewClient(name, key) => ClientSettles(d, name, key);
    case Trust(dirs, ca) => TrustSettles(d, dirs, ca);
    case Issue(dirs, supply) => IssueSettles(d, dirs, supply);
    case Retire(dirs) => RetireSettles(d, dirs);
  }

  lemma KeptSettles(d: Disk, c: Command)
    requires Settled(d) && Callable(d, c) && c.Init?
    ensures Settled(ApplyAll(d, Plan(d, c)))
  {
  }

  // ---------------------------------------------------------------- whose certificate, and of which kind

  /** The command makes new leaves for the directories that are there. */
  ghost predicate Renews(d: Disk, c: Command) {
    c.Renew? || (c.Issue? && d.next.Some?)
  }

  lemma RenewedKind(d: Disk, c: Ca, caKey: nat, supply: Supply, n: Name)
    requires n in d.crt && Genuine(d.crt[n])
    ensures var r := Renewed(c, caKey, d.crt, supply);
      && n in r && r[n].subject == d.crt[n].subject
      && (r[n].server == d.crt[n].server <==> d.crt[n].server || d.crt[n].subject != "localhost")
  {
  }

  /**
   * No command changes whose certificate a directory holds. Its kind changes exactly when the command renews it and it is a
   * client's certificate for the name `localhost`, which is then taken for a server's.
   */
  lemma KindsStay(d: Disk, c: Command, n: Name)
    requires Callable(d, c) && Settled(d) && Listed(n) && n in d.crt && (c.NewClient? ==> Some(n) != ClientDir(c.name))
    ensures var d1 := ApplyAll(d, Plan(d, c));
      && n in d1.crt && d1.crt[n].subject == d.crt[n].subject
      && (d1.crt[n].server == d.crt[n].server <==> !(Renews(d, c) && !d.crt[n].server && d.crt[n].subject == "localhost"))
  {
    assert Whole(d, n);
    match c
    case Init(_, _, _, _) =>
    case Renew(dirs, supply) =>
      RenewedKind(d, d.ca.value, d.caKey.value, supply, n);
      ApplyLeaves(d, dirs, Renewed(d.ca.value, d.caKey.value, d.crt, supply), BundleOf(d));
    case NewClient(name, key) => ApplyLeaf(d, ClientDir(name).value, ClientLeaf(d, name, key), BundleOf(d));
    case Trust(dirs, ca) => if d.next.None? { TrustReached(d, dirs, ca); }
    case Issue(dirs, supply) =>
      if d.next.Some? {
        RenewedKind(d, d.next.value, d.nextKey.value, supply, n);
        IssueReached(d, dirs, supply);
      }
    case Retire(dirs) => if d.previous.Some? { RetireReached(d, dirs); }
  }

  /** The kinds of new certificates: `init` makes servers' and clients' ones under their names, `client` only clients'. */
  lemma NewKinds(d: Disk, c: Command, n: Name)
    requires Callable(d, c)
    requires (c.Init? && d == EMPTY && n in DirsOf(c.services)) || (c.NewClient? && Some(n) == ClientDir(c.name))
    ensures var d1 := ApplyAll(d, Plan(d, c));
      n in d1.crt && if c.Init? then n == [d1.crt[n].subject] && d1.crt[n].server == (d1.crt[n].subject in c.servers)
                     else d1.crt[n].subject == c.name && !d1.crt[n].server && d1.crt[n].names == {c.name}
  {
    if c.Init? {
      var leaves, dirs := FirstLeaves(c.ca, c.services, c.servers, c.supply), DirsOf(c.services);
      Twice(d, CaKey(c.ca.key), CaCrt(c.ca), WriteLeaves(dirs, leaves, [c.ca]));
      ApplyLeaves(d.(ca := Some(c.ca), caKey := Some(c.ca.key)), dirs, leaves, [c.ca]);
    } else {
      ApplyLeaf(d, n, ClientLeaf(d, c.name, c.key), BundleOf(d));
    }
  }

  // ---------------------------------------------------------------- directories no command finds again

  /** Only what is listed is written: any other directory keeps its three files through every command but `client`. */
  lemma UnlistedIsForgotten(d: Disk, c: Command, n: Name)
    requires Callable(d, c) && Settled(d) && n in d.crt && n in d.key && n in d.bundle && !Listed(n)
    ensures var d1 := ApplyAll(d, Plan(d, c));
      && n in d1.crt && n in d1.key && n in d1.bundle
      && d1.crt[n] == d.crt[n] && d1.key[n] == d.key[n] && d1.bundle[n] == d.bundle[n]
  {
    match c
    case Init(_, _, _, _) =>
    case Renew(dirs, supply) => ApplyLeaves(d, dirs, Renewed(d.ca.value, d.caKey.value, d.crt, supply), BundleOf(d));
    case NewClient(name, key) => ApplyLeaf(d, ClientDir(name).value, ClientLeaf(d, name, key), BundleOf(d));
    case Trust(dirs, ca) => if d.next.None? { TrustReached(d, dirs, ca); }
    case Issue(dirs, supply) => if d.next.Some? { IssueReached(d, dirs, supply); }
    case Retire(dirs) => if d.previous.Some? { RetireReached(d, dirs); }
  }

  /** What `client` leaves for a name that is out of reach: the rest stays settled, and the new directory is whole for now. */
  lemma StrayClient(d: Disk, name: string, key: nat)
    requires Settled(d) && ClientDir(name).Some? && !Listed(ClientDir(name).value)
    ensures var n := ClientDir(name).value; var d1 := ApplyAll(d, WriteLeaf(n, ClientLeaf(d, name, key), BundleOf(d)));
      Settled(d1) && SameCa(d, d1) && Whole(d1, n)
  {
    hide ApplyAll, ClientDir, Whole, Listed, SameCa;
    var n, leaf := ClientDir(name).value, ClientLeaf(d, name, key);
    ApplyLeaf(d, n, leaf, BundleOf(d));
    MadeGenuine(d.ca.value, d.caKey.value, name, key, false, {});
    NewStray(d, n, leaf);
  }

  lemma NewStray(d: Disk, n: Name, leaf: Leaf)
    requires Settled(d) && !Listed(n) && CaOf(leaf) == d.ca.value && Genuine(leaf)
    ensures var d1 := d.(crt := d.crt[n := leaf], key := d.key[n := leaf.key], bundle := d.bundle[n := BundleOf(d)]);
      Settled(d1) && SameCa(d, d1) && Whole(d1, n)
  {
    hide Listed, Genuine;
    var d1 := d.(crt := d.crt[n := leaf], key := d.key[n := leaf.key], bundle := d.bundle[n := BundleOf(d)]);
    assert BundleOf(d1) == BundleOf(d);
    forall m | Listed(m) && m in d1.crt ensures Whole(d1, m) { assert Whole(d, m); }
  }

  /** After one rotation such a directory and every listed one reject each other. */
  lemma StrayDisagrees(d: Disk, n: Name, m: Name, dirs: seq<Name>, ca: Ca, supply: Supply)
    requires Settled(d) && Whole(d, n) && !Listed(n) && Listed(m) && m in d.crt && Lists(dirs, d)
    requires d.next.None? && ca !in BundleOf(d)
    ensures var d1 := ApplyAll(d, Plan(d, Trust(dirs, ca)));
      && Callable(d1, Issue(dirs, supply))
      && var d2 := ApplyAll(d1, Plan(d1, Issue(dirs, supply)));
      && Callable(d2, Retire(dirs))
      && var d3 := ApplyAll(d2, Plan(d2, Retire(dirs)));
      && n in d3.crt && n in d3.bundle && m in d3.crt && m in d3.bundle
      && !Trusts(d3.bundle[m], d3.crt[n]) && !Trusts(d3.bundle[n], d3.crt[m])
  {
    hide ApplyAll, Plan, Settled, Lists, Listed, Renews, BundleOf;
    assert n in d.crt && n in d.key && n in d.bundle;
    Phase(d, Trust(dirs, ca), n, m);
    var d1 := ApplyAll(d, Plan(d, Trust(dirs, ca)));
    Phase(d1, Issue(dirs, supply), n, m);
    var d2 := ApplyAll(d1, Plan(d1, Issue(dirs, supply)));
    Phase(d2, Retire(dirs), n, m);
    var d3 := ApplyAll(d2, Plan(d2, Retire(dirs)));
    StrayEnds(d, d3, n, m, ca);
  }

  /** One phase, seen from a stray directory and a listed one. */
  lemma Phase(d: Disk, c: Command, n: Name, m: Name)
    requires (c.Trust? || c.Issue? || c.Retire?) && Callable(d, c) && Listed(m) && m in d.crt
    requires n in d.crt && n in d.key && n in d.bundle && !Listed(n)
    ensures var d1 := ApplyAll(d, Plan(d, c));
      && Settled(d1) && Lists(c.dirs, d1) && m in d1.crt
      && n in d1.crt && n in d1.key && n in d1.bundle && d1.crt[n] == d.crt[n] && d1.bundle[n] == d.bundle[n]
    ensures SameCa(ApplyAll(d, Plan(d, c)), match c
      case Trust(_, ca) => if d.next.Some? then d else d.(next := Some(ca), nextKey := Some(ca.key))
      case Issue(_, _) => if d.next.Some? then Promoted(d) else d
      case _ => d.(previous := None))
  {
    CommandSettles(d, c);
    UnlistedIsForgotten(d, c, n);
    EndCa(d, c);
    match c
    case Trust(dirs, ca) => if d.next.None? { TrustReached(d, dirs, ca); }
    case Issue(dirs, supply) => if d.next.Some? { IssueReached(d, dirs, supply); }
    case Retire(dirs) => if d.previous.Some? { RetireReached(d, dirs); }
  }

  lemma StrayEnds(d: Disk, d3: Disk, n: Name, m: Name, ca: Ca)
    requires Settled(d) && Whole(d, n) && ca !in BundleOf(d)
    requires Settled(d3) && Listed(m) && m in d3.crt && d3.ca == Some(ca) && d3.next.None? && d3.previous.None?
    requires n in d3.crt && n in d3.bundle && d3.crt[n] == d.crt[n] && d3.bundle[n] == d.bundle[n]
    ensures m in d3.bundle && !Trusts(d3.bundle[m], d3.crt[n]) && !Trusts(d3.bundle[n], d3.crt[m])
  {
    assert BundleOf(d3) == [ca];
    assert Whole(d3, m);
    assert d.ca.value in BundleOf(d);
  }

  /** A name that leads to a service's directory replaces its server certificate by a client's. */
  lemma ServerOverwritten(d: Disk, service: string, key: nat)
    requires Settled(d) && PlainPart(service) && service != "ca"
    ensures InReach("../" + service)
    ensures var name := "../" + service; var d1 := ApplyAll(d, Plan(d, NewClient(name, key)));
      [service] in d1.crt && !d1.crt[[service]].server && d1.crt[[service]].subject == name
  {
    ParentNames(service);
    NewKinds(d, NewClient("../" + service, key), [service]);
  }

  // ---------------------------------------------------------------- services and commands, interleaved

  /** What a running service has read: certificate, key and bundle, each at its own time. */
  datatype Loaded = Loaded(leaf: Leaf, key: nat, bundle: seq<Ca>)

  /** The files, the writes the command under way has still to make, and the running services. */
  datatype System = System(disk: Disk, todo: seq<Write>, live: map<Name, Loaded>)

  const NOTHING := System(EMPTY, [], map[])

  datatype Action =
    | WriteNext | ReadCrt(n: Name) | ReadKey(n: Name) | ReadBundle(n: Name) | Start(n: Name) | Stop(n: Name) | Call(c: Command)

  /**
   * What must be true of the running services before the command: nothing for most commands. Before `issue` every service
   * trusts the coming CA and shows a certificate of the present one (or already of the coming one); before `retire` no
   * service shows a certificate of the CA that goes.
   */
  ghost predicate Ready(s: System, c: Command)
    requires Callable(s.disk, c)
  {
    match c
    case Issue(_, _) => s.disk.next.Some? ==> forall n :: n in s.live ==>
      s.disk.next.value in s.live[n].bundle && CaOf(s.live[n].leaf) in [s.disk.next.value, s.disk.ca.value]
    case Retire(_) => s.disk.previous.Some? ==> forall n :: n in s.live ==>
      Trusts(BundleOf(s.disk.(previous := None)), s.live[n].leaf)
    case _ => true
  }

  /** Everything was restarted after the last command. */
  ghost predicate Fresh(s: System) {
    forall n :: n in s.live ==>
      n in s.disk.crt && n in s.disk.key && n in s.disk.bundle
      && s.live[n] == Loaded(s.disk.crt[n], s.disk.key[n], s.disk.bundle[n])
  }

  lemma RestartIsEnough(s: System, c: Command)
    requires s.todo == [] && Invariant(s) && Callable(s.disk, c) && Fresh(s)
    ensures Ready(s, c)
  {
    if s != NOTHING {
      var k :| Good(s, k);
      forall n | n in s.live ensures Listed(n) && Whole(s.disk, n) { GoodKnows(s, k, n); }
      hide Good, Settled, Invariant, Lists, InReach;
    }
  }

  ghost predicate Enabled(s: System, a: Action) {
    match a
    case WriteNext => s.todo != []
    case ReadCrt(n) => n in s.live && n in s.disk.crt
    case ReadKey(n) => n in s.live && n in s.disk.key
    case ReadBundle(n) => n in s.live && n in s.disk.bundle
    case Start(n) => n in s.disk.crt && n in s.disk.key && n in s.disk.bundle
    case Stop(n) => n in s.live
    case Call(c) => s.todo == [] && Callable(s.disk, c) && Ready(s, c)
  }

  ghost function Next(s: System, a: Action): System
    requires Enabled(s, a)
  {
    match a
    case WriteNext => System(Apply(s.disk, s.todo[0]), s.todo[1..], s.live)
    case ReadCrt(n) => s.(live := s.live[n := s.live[n].(leaf := s.disk.crt[n])])
    case ReadKey(n) => s.(live := s.live[n := s.live[n].(key := s.disk.key[n])])
    case ReadBundle(n) => s.(live := s.live[n := s.live[n].(bundle := s.disk.bundle[n])])
    case Start(n) => s.(live := s.live[n := Loaded(s.disk.crt[n], s.disk.key[n], s.disk.bundle[n])])
    case Stop(n) => s.(live := s.live - {n})
    case Call(c) => s.(todo := Plan(s.disk, c))
  }

  ghost predicate Allowed(s: System, acts: seq<Action>)
    decreases |acts|
  {
    acts == [] || (Enabled(s, acts[0]) && Allowed(Next(s, acts[0]), acts[1..]))
  }

  ghost function After(s: System, acts: seq<Action>): System
    requires Allowed(s, acts)
    decreases |acts|
  {
    if acts == [] then s else After(Next(s, acts[0]), acts[1..])
  }

  /** Every service accepts the certificate of every service. */
  ghost predicate Agrees(s: System) {
    forall a, b :: a in s.live && b in s.live ==> Trusts(s.live[a].bundle, s.live[b].leaf)
  }

  // ---------------------------------------------------------------- the invariant

  ghost predicate Within(k: set<Ca>, bundle: seq<Ca>) {
    forall c :: c in k ==> c in bundle
  }

  /** `k` separates the leaves from the bundles: every leaf is from a CA in `k`, every bundle holds all of `k`. */
  ghost predicate LiveFits(k: set<Ca>, live: map<Name, Loaded>) {
    forall n :: n in live ==> CaOf(live[n].leaf) in k && Within(k, live[n].bundle)
  }

  ghost predicate DiskFits(k: set<Ca>, d: Disk) {
    && (forall n :: n in d.crt ==> Listed(n) && CaOf(d.crt[n]) in k)
    && (forall n :: n in d.bundle ==> Listed(n) && Within(k, d.bundle[n]))
  }

  ghost predicate WriteFits(k: set<Ca>, w: Write) {
    && (w.TlsCrt? ==> Listed(w.n) && CaOf(w.leaf) in k)
    && (w.CaBundle? ==> Listed(w.n) && Within(k, w.b))
  }

  ghost predicate TodoFits(k: set<Ca>, ws: seq<Write>) {
    forall i :: 0 <= i < |ws| ==> WriteFits(k, ws[i])
  }

  ghost predicate Good(s: System, k: set<Ca>) {
    var f := ApplyAll(s.disk, s.todo);
    && Settled(f) && f.ca.value in k && Within(k, BundleOf(f))
    && LiveFits(k, s.live) && DiskFits(k, s.disk) && TodoFits(k, s.todo)
    && (forall n :: n in s.live ==> n in s.disk.crt)
  }

  ghost predicate Invariant(s: System) {
    s == NOTHING || exists k :: Good(s, k)
  }

  lemma GoodAgrees(s: System, k: set<Ca>)
    requires Good(s, k)
    ensures Agrees(s)
  {
  }

  lemma TodoPlus(k: set<Ca>, a: seq<Write>, b: seq<Write>)
    requires TodoFits(k, a) && TodoFits(k, b)
    ensures TodoFits(k, a + b)
  {
  }

  lemma {:induction false} LeavesFit(k: set<Ca>, dirs: seq<Name>, leaves: map<Name, Leaf>, bundle: seq<Ca>)
    requires (forall n :: n in dirs ==> Listed(n) && n in leaves && CaOf(leaves[n]) in k) && Within(k, bundle)
    ensures TodoFits(k, WriteLeaves(dirs, leaves, bundle))
    decreases |dirs|
  {
    if dirs != [] {
      LeavesFit(k, dirs[1..], leaves, bundle);
      TodoPlus(k, WriteLeaf(dirs[0], leaves[dirs[0]], bundle), WriteLeaves(dirs[1..], leaves, bundle));
    }
  }

  lemma {:induction false} BundlesFit(k: set<Ca>, dirs: seq<Name>, bundle: seq<Ca>)
    requires Within(k, bundle) && forall n :: n in dirs ==> Listed(n)
    ensures TodoFits(k, WriteBundles(dirs, bundle))
    decreases |dirs|
  {
    if dirs != [] {
      BundlesFit(k, dirs[1..], bundle);
      TodoPlus(k, [CaBundle(dirs[0], bundle)], WriteBundles(dirs[1..], bundle));
    }
  }

  /** The CAs a command keeps in play, given those in play before it. */
  ghost function Kept(s: System, k: set<Ca>, c: Command): set<Ca>
    requires Callable(s.disk, c)
  {
    match c
    case Init(_, _, ca, _) => if s.disk == EMPTY then {ca} else k
    case Issue(_, _) => if s.disk.next.Some? then {s.disk.ca.value, s.disk.next.value} else k
    case Retire(_) => if s.disk.previous.Some? then set c | c in k && c in BundleOf(s.disk.(previous := None)) else k
    case _ => k
  }

  lemma InitFits(s: System, k: set<Ca>, c: Command)
    requires s == NOTHING && c.Init? && Callable(s.disk, c)
    ensures TodoFits(Kept(s, k, c), Plan(s.disk, c))
  {
    var leaves, dirs := FirstLeaves(c.ca, c.services, c.servers, c.supply), DirsOf(c.services);
    LeavesFit({c.ca}, dirs, leaves, [c.ca]);
    TodoPlus({c.ca}, [CaKey(c.ca.key), CaCrt(c.ca)], WriteLeaves(dirs, leaves, [c.ca]));
  }

  lemma RenewFits(d: Disk, k: set<Ca>, c: Ca, dirs: seq<Name>, supply: Supply, bundle: seq<Ca>)
    requires Lists(dirs, d) && c in k && Within(k, bundle)
    ensures forall n :: n in dirs ==> n in Renewed(c, c.key, d.crt, supply)
    ensures TodoFits(k, WriteLeaves(dirs, Renewed(c, c.key, d.crt, supply), bundle))
  {
    forall n | n in dirs ensures n in Renewed(c, c.key, d.crt, supply) && CaOf(Renewed(c, c.key, d.crt, supply)[n]) in k {
      RenewedFits(c, d, supply, n);
    }
    hide Renewed, Within;
    LeavesFit(k, dirs, Renewed(c, c.key, d.crt, supply), bundle);
  }

  lemma ClientFits(d: Disk, k: set<Ca>, name: string, key: nat)
    requires Callable(d, NewClient(name, key)) && d.ca.value in k && Within(k, BundleOf(d))
    ensures TodoFits(k, Plan(d, NewClient(name, key)))
  {
    hide ClientDir, BundleOf, Within;
  }

  lemma TrustFits(d: Disk, k: set<Ca>, dirs: seq<Name>, ca: Ca)
    requires Callable(d, Trust(dirs, ca)) && Within(k, BundleOf(d))
    ensures TodoFits(k, Plan(d, Trust(dirs, ca)))
    ensures d.next.None? ==> Within(k, BundleOf(d.(next := Some(ca))))
  {
    if d.next.None? {
      var b := BundleOf(d.(next := Some(ca)));
      assert b == OneOf(d.ca) + [ca] + OneOf(d.previous);
      forall x | x in k ensures x in b { assert x in BundleOf(d); }
      hide BundleOf, Settled;
      BundlesFit(k, dirs, b);
      TodoPlus(k, [NextKey(ca.key), NextCrt(ca)], WriteBundles(dirs, b));
    }
  }

  lemma IssueFits(d: Disk, dirs: seq<Name>, supply: Supply)
    requires Callable(d, Issue(dirs, supply)) && d.next.Some?
    ensures TodoFits({d.ca.value, d.next.value}, Plan(d, Issue(dirs, supply)))
  {
    var k, b := {d.ca.value, d.next.value}, BundleOf(Promoted(d));
    assert b == [d.next.value, d.ca.value];
    hide BundleOf, Renewed;
    RenewFits(d, k, d.next.value, dirs, supply, b);
    TodoPlus(k, [KeepPrevious, PromoteCrt, PromoteKey], WriteLeaves(dirs, Renewed(d.next.value, d.nextKey.value, d.crt, supply), b));
  }

  lemma RetireFits(d: Disk, k: set<Ca>, dirs: seq<Name>)
    requires Callable(d, Retire(dirs)) && d.previous.Some? && Within(k, BundleOf(d.(previous := None)))
    ensures TodoFits(k, Plan(d, Retire(dirs)))
  {
    var b := BundleOf(d.(previous := None));
    hide BundleOf, Settled;
    BundlesFit(k, dirs, b);
    TodoPlus(k, [DropPrevious], WriteBundles(dirs, b));
  }

  lemma GoodSays(s: System, k: set<Ca>)
    requires s.todo == [] && Good(s, k)
    ensures Settled(s.disk) && s.disk.ca.value in k && Within(k, BundleOf(s.disk)) && LiveFits(k, s.live) && DiskFits(k, s.disk)
  {
  }

  /** The writes of a command come from CAs it keeps in play, and go to directories the next command finds again. */
  lemma CommandFits(s: System, k: set<Ca>, c: Command)
    requires s.todo == [] && Callable(s.disk, c) && (if s.disk == EMPTY then s == NOTHING && c.Init? else Good(s, k))
    ensures TodoFits(Kept(s, k, c), Plan(s.disk, c))
  {
    var d := s.disk;
    if d == EMPTY {
      InitFits(s, k, c);
    } else {
      GoodSays(s, k);
      assert d.caKey.value == d.ca.value.key;
      match c
      case Init(_, _, _, _) =>
      case Renew(dirs, supply) => RenewFits(d, k, d.ca.value, dirs, supply, BundleOf(d));
      case NewClient(name, key) => ClientFits(d, k, name, key);
      case Trust(dirs, ca) => TrustFits(d, k, dirs, ca);
      case Issue(dirs, supply) => if d.next.Some? { IssueFits(d, dirs, supply); }
      case Retire(dirs) => if d.previous.Some? { RetireFits(d, Kept(s, k, c), dirs); }
    }
    hide Good, Settled, BundleOf, Within, LiveFits, DiskFits, TodoFits, Lists, InReach;
  }

  lemma LiveServicesFit(s: System, k: set<Ca>, c: Command)
    requires Callable(s.disk, c) && Ready(s, c) && s.disk != EMPTY && s.disk.ca.Some? && LiveFits(k, s.live)
    requires s.disk.ca.value in k && Within(k, BundleOf(s.disk))
    ensures LiveFits(Kept(s, k, c), s.live)
  {
    hide Callable, Settled, Lists, InReach;
    forall n | n in s.live ensures CaOf(s.live[n].leaf) in Kept(s, k, c) && Within(Kept(s, k, c), s.live[n].bundle) {
      assert CaOf(s.live[n].leaf) in k && Within(k, s.live[n].bundle);
    }
  }

  lemma DirectoriesFit(s: System, k: set<Ca>, c: Command)
    requires Callable(s.disk, c) && s.disk != EMPTY && Settled(s.disk) && s.disk.ca.value in k && Within(k, BundleOf(s.disk))
    requires DiskFits(k, s.disk)
    ensures DiskFits(Kept(s, k, c), s.disk)
  {
    hide Callable, Lists, InReach, Listed;
    var d, now := s.disk, Kept(s, k, c);
    forall n | n in d.crt ensures Listed(n) && CaOf(d.crt[n]) in now { assert Whole(d, n); }
    forall n | n in d.bundle ensures Listed(n) && Within(now, d.bundle[n]) { assert Whole(d, n); }
  }

  /** Services that are ready, and all directories, fit what the command keeps in play. */
  lemma ServicesFit(s: System, k: set<Ca>, c: Command)
    requires s.todo == [] && Callable(s.disk, c) && Ready(s, c) && (if s.disk == EMPTY then s == NOTHING && c.Init? else Good(s, k))
    ensures LiveFits(Kept(s, k, c), s.live) && DiskFits(Kept(s, k, c), s.disk)
  {
    if s.disk != EMPTY {
      GoodSays(s, k);
      LiveServicesFit(s, k, c);
      DirectoriesFit(s, k, c);
    }
  }

  lemma CommandEnds(s: System, k: set<Ca>, c: Command)
    requires s.todo == [] && Callable(s.disk, c) && (if s.disk == EMPTY then s == NOTHING && c.Init? else Good(s, k))
    ensures var f := ApplyAll(s.disk, Plan(s.disk, c)); var k1 := Kept(s, k, c);
      Settled(f) && f.ca.value in k1 && Within(k1, BundleOf(f))
  {
    CommandSettles(s.disk, c);
    EndCa(s.disk, c);
    if s.disk != EMPTY { GoodSays(s, k); }
    var d := s.disk;
    hide Good, Settled, Plan, ApplyAll, Lists, InReach, LiveFits, DiskFits;
    if c.Trust? && d.next.None? {
      TrustFits(d, k, c.dirs, c.ca);
    }
  }

  /** The CA files after a command. */
  lemma EndCa(d: Disk, c: Command)
    requires Callable(d, c)
    ensures SameCa(ApplyAll(d, Plan(d, c)), match c
      case Init(_, _, ca, _) => if d.ca.Some? then d else d.(ca := Some(ca), caKey := Some(ca.key))
      case Trust(_, ca) => if d.next.Some? then d else d.(next := Some(ca), nextKey := Some(ca.key))
      case Issue(_, _) => if d.next.Some? then Promoted(d) else d
      case Retire(_) => d.(previous := None)
      case _ => d)
  {
    match c
    case Init(services, servers, ca, supply) =>
      if d == EMPTY {
        var leaves, dirs := FirstLeaves(ca, services, servers, supply), DirsOf(services);
        Twice(d, CaKey(ca.key), CaCrt(ca), WriteLeaves(dirs, leaves, [ca]));
        ApplyLeaves(d.(ca := Some(ca), caKey := Some(ca.key)), dirs, leaves, [ca]);
      }
    case Renew(dirs, supply) => ApplyLeaves(d, dirs, Renewed(d.ca.value, d.caKey.value, d.crt, supply), BundleOf(d));
    case NewClient(name, key) => ApplyLeaf(d, ClientDir(name).value, ClientLeaf(d, name, key), BundleOf(d));
    case Trust(dirs, ca) => if d.next.None? { TrustReached(d, dirs, ca); }
    case Issue(dirs, supply) => if d.next.Some? { IssueReached(d, dirs, supply); }
    case Retire(dirs) => if d.previous.Some? { RetireReached(d, dirs); }
  }

  lemma CallKeeps(s: System, k: set<Ca>, c: Command)
    requires s.todo == [] && Callable(s.disk, c) && Ready(s, c)
    requires if s.disk == EMPTY then s == NOTHING && c.Init? else Good(s, k)
    ensures Good(s.(todo := Plan(s.disk, c)), Kept(s, k, c))
  {
    hide Plan, Settled, Within, LiveFits, DiskFits, TodoFits, Kept, BundleOf, Ready, Callable;
    CommandFits(s, k, c);
    ServicesFit(s, k, c);
    CommandEnds(s, k, c);
  }

  lemma WriteKeeps(s: System, k: set<Ca>)
    requires Good(s, k) && s.todo != []
    ensures Good(System(Apply(s.disk, s.todo[0]), s.todo[1..], s.live), k)
  {
    hide Settled, Within, LiveFits, BundleOf;
    assert WriteFits(k, s.todo[0]);
  }

  lemma ReadKeeps(s: System, k: set<Ca>, a: Action)
    requires Good(s, k) && !a.WriteNext? && !a.Call? && Enabled(s, a)
    ensures Good(Next(s, a), k)
  {
    hide Settled, ApplyAll, Within, BundleOf;
  }

  lemma StepKeeps(s: System, a: Action)
    requires Invariant(s) && Enabled(s, a)
    ensures Invariant(Next(s, a))
  {
    hide Good, Callable, Ready, Plan, Apply, Kept;
    if s == NOTHING {
      NothingCallsInit(a);
      CallKeeps(s, {}, a.c);
      assert Good(Next(s, a), Kept(s, {}, a.c));
    } else {
      var k :| Good(s, k);
      match a
      case WriteNext => WriteKeeps(s, k);
        assert Good(Next(s, a), k);
      case Call(c) =>
        GoodIsNotEmpty(s, k);
        CallKeeps(s, k, c);
        assert Good(Next(s, a), Kept(s, k, c));
      case _ => ReadKeeps(s, k, a);
        assert Good(Next(s, a), k);
    }
  }

  lemma NothingCallsInit(a: Action)
    requires Enabled(NOTHING, a)
    ensures a.Call? && a.c.Init?
  {
  }

  lemma GoodIsNotEmpty(s: System, k: set<Ca>)
    requires Good(s, k) && s.todo == []
    ensures s.disk != EMPTY && Settled(s.disk)
  {
  }

  /**
   * At no moment do two services disagree: whatever renewals, new clients and rotations are run, in or out of order, and
   * however writes, rereads and restarts interleave, as long as the services are ready when `issue` and `retire` begin.
   */
  lemma {:induction false} NeverDisagree(s: System, acts: seq<Action>)
    requires Invariant(s) && Allowed(s, acts)
    ensures Invariant(After(s, acts)) && Agrees(After(s, acts))
    decreases |acts|
  {
    hide Good, Enabled, Next;
    if acts == [] {
      if s != NOTHING {
        var k :| Good(s, k);
        GoodAgrees(s, k);
      }
    } else {
      StepKeeps(s, acts[0]);
      NeverDisagree(Next(s, acts[0]), acts[1..]);
    }
  }

  lemma FromNothing(acts: seq<Action>)
    requires Allowed(NOTHING, acts)
    ensures Agrees(After(NOTHING, acts))
  {
    NeverDisagree(NOTHING, acts);
  }

  /** Between commands every directory has its own key and a certificate signed by the CA, however the run went. */
  lemma IdleIsSettled(acts: seq<Action>)
    requires Allowed(NOTHING, acts) && After(NOTHING, acts).todo == []
    ensures After(NOTHING, acts) == NOTHING || Settled(After(NOTHING, acts).disk)
  {
    NeverDisagree(NOTHING, acts);
    var s := After(NOTHING, acts);
    if s != NOTHING {
      var k :| Good(s, k);
      GoodIsNotEmpty(s, k);
    }
  }

  // ---------------------------------------------------------------- the condition is exact

  ghost predicate NoCall(acts: seq<Action>) {
    forall i :: 0 <= i < |acts| ==> !acts[i].Call?
  }

  function Writes(n: nat): seq<Action> {
    seq(n, _ => WriteNext)
  }

  lemma {:induction false} WriteAll(s: System, more: seq<Action>)
    requires Allowed(System(ApplyAll(s.disk, s.todo), [], s.live), more)
    ensures Allowed(s, Writes(|s.todo|) + more)
    ensures After(s, Writes(|s.todo|) + more) == After(System(ApplyAll(s.disk, s.todo), [], s.live), more)
    decreases |s.todo|
  {
    var acts := Writes(|s.todo|) + more;
    if s.todo == [] {
      assert acts == more;
    } else {
      var s1 := Next(s, WriteNext);
      hide Apply, Enabled, Next;
      OneWrite(s);
      WriteAll(s1, more);
      assert acts[0] == WriteNext && acts[1..] == Writes(|s1.todo|) + more;
    }
  }

  lemma OneWrite(s: System)
    requires s.todo != []
    ensures var s1 := Next(s, WriteNext);
      Enabled(s, WriteNext) && s1.todo == s.todo[1..] && s1.live == s.live && ApplyAll(s1.disk, s1.todo) == ApplyAll(s.disk, s.todo)
  {
    hide Apply;
  }

  /** The phase run to its end, then one service rereading one file. */
  ghost function Witness(s: System, c: Command, last: Action): seq<Action>
    requires Callable(s.disk, c)
  {
    Writes(|Plan(s.disk, c)|) + [last]
  }

  lemma WitnessEnds(s: System, c: Command, last: Action)
    requires s.todo == [] && Callable(s.disk, c) && !last.Call?
    requires Enabled(System(ApplyAll(s.disk, Plan(s.disk, c)), [], s.live), last)
    ensures var s1 := s.(todo := Plan(s.disk, c)); var acts := Witness(s, c, last);
      && NoCall(acts) && Allowed(s1, acts)
      && After(s1, acts) == Next(System(ApplyAll(s.disk, Plan(s.disk, c)), [], s.live), last)
  {
    var s2 := System(ApplyAll(s.disk, Plan(s.disk, c)), [], s.live);
    hide Enabled, Next, Plan, ApplyAll, Callable;
    assert [last][1..] == [];
    assert Allowed(Next(s2, last), []);
    assert Allowed(s2, [last]);
    WriteAll(s.(todo := Plan(s.disk, c)), [last]);
  }

  /** What a service finds after `issue`. */
  lemma IssueShows(d: Disk, dirs: seq<Name>, supply: Supply, n: Name)
    requires Settled(d) && Lists(dirs, d) && d.next.Some? && n in d.crt && Listed(n)
    ensures var f := ApplyAll(d, Plan(d, Issue(dirs, supply)));
      && n in f.crt && n in f.bundle && CaOf(f.crt[n]) == d.next.value
      && forall c :: c in f.bundle[n] <==> c in [d.next.value, d.ca.value]
  {
    IssueReached(d, dirs, supply);
    RenewedFits(d.next.value, d, supply, n);
    hide ApplyAll, Plan, Renewed;
    assert BundleOf(Promoted(d)) == [d.next.value, d.ca.value];
  }

  /** What a service finds after `retire`. */
  lemma RetireShows(d: Disk, dirs: seq<Name>, n: Name)
    requires Settled(d) && Lists(dirs, d) && d.previous.Some? && n in d.crt && Listed(n)
    ensures var f := ApplyAll(d, Plan(d, Retire(dirs)));
      n in f.crt && n in f.bundle && f.bundle[n] == BundleOf(d.(previous := None))
  {
    RetireReached(d, dirs);
    assert Whole(d, n);
    hide ApplyAll, Plan, BundleOf;
  }

  lemma GoodKnows(s: System, k: set<Ca>, n: Name)
    requires s.todo == [] && Good(s, k) && n in s.live
    ensures Settled(s.disk) && n in s.disk.crt && Listed(n) && Whole(s.disk, n)
  {
  }

  lemma SelfDisagrees(s: System, n: Name)
    requires n in s.live && !Trusts(s.live[n].bundle, s.live[n].leaf)
    ensures !Agrees(s)
  {
  }

  lemma RereadBreaks(s: System, c: Command, n: Name)
    requires s.todo == [] && Callable(s.disk, c) && n in s.live
    requires var f := ApplyAll(s.disk, Plan(s.disk, c)); n in f.bundle && !Trusts(f.bundle[n], s.live[n].leaf)
    ensures var s1 := s.(todo := Plan(s.disk, c)); var acts := Witness(s, c, ReadBundle(n));
      NoCall(acts) && Allowed(s1, acts) && !Agrees(After(s1, acts))
  {
    hide Plan, ApplyAll, Callable, Allowed, After, NoCall, Witness, Agrees;
    WitnessEnds(s, c, ReadBundle(n));
    SelfDisagrees(Next(System(ApplyAll(s.disk, Plan(s.disk, c)), [], s.live), ReadBundle(n)), n);
  }

  lemma RenewedBreaks(s: System, c: Command, n: Name)
    requires s.todo == [] && Callable(s.disk, c) && n in s.live
    requires var f := ApplyAll(s.disk, Plan(s.disk, c)); n in f.crt && !Trusts(s.live[n].bundle, f.crt[n])
    ensures var s1 := s.(todo := Plan(s.disk, c)); var acts := Witness(s, c, ReadCrt(n));
      NoCall(acts) && Allowed(s1, acts) && !Agrees(After(s1, acts))
  {
    hide Plan, ApplyAll, Callable, Allowed, After, NoCall, Witness, Agrees;
    WitnessEnds(s, c, ReadCrt(n));
    SelfDisagrees(Next(System(ApplyAll(s.disk, Plan(s.disk, c)), [], s.live), ReadCrt(n)), n);
  }

  lemma UnreadyIssueBreaks(s: System, k: set<Ca>, dirs: seq<Name>, supply: Supply) returns (acts: seq<Action>)
    requires s.todo == [] && Good(s, k) && Callable(s.disk, Issue(dirs, supply)) && !Ready(s, Issue(dirs, supply))
    ensures var s1 := s.(todo := Plan(s.disk, Issue(dirs, supply)));
      NoCall(acts) && Allowed(s1, acts) && !Agrees(After(s1, acts))
  {
    var c, d := Issue(dirs, supply), s.disk;
    var n :| n in s.live && !(d.next.value in s.live[n].bundle && CaOf(s.live[n].leaf) in [d.next.value, d.ca.value]);
    hide Plan, ApplyAll, Settled, Lists, Good, Allowed, After, NoCall, Witness, Ready, Agrees, BundleOf, Enabled, Next;
    GoodKnows(s, k, n);
    IssueShows(d, dirs, supply, n);
    if d.next.value in s.live[n].bundle {
      RereadBreaks(s, c, n);
      acts := Witness(s, c, ReadBundle(n));
    } else {
      RenewedBreaks(s, c, n);
      acts := Witness(s, c, ReadCrt(n));
    }
  }

  lemma UnreadyRetireBreaks(s: System, k: set<Ca>, dirs: seq<Name>) returns (acts: seq<Action>)
    requires s.todo == [] && Good(s, k) && Callable(s.disk, Retire(dirs)) && !Ready(s, Retire(dirs))
    ensures var s1 := s.(todo := Plan(s.disk, Retire(dirs)));
      NoCall(acts) && Allowed(s1, acts) && !Agrees(After(s1, acts))
  {
    var n :| n in s.live && !Trusts(BundleOf(s.disk.(previous := None)), s.live[n].leaf);
    hide Plan, ApplyAll, Settled, Lists, Good, Allowed, After, NoCall, Witness, Ready, Agrees, BundleOf, Trusts, Enabled, Next;
    GoodKnows(s, k, n);
    RetireShows(s.disk, dirs, n);
    RereadBreaks(s, Retire(dirs), n);
    acts := Witness(s, Retire(dirs), ReadBundle(n));
  }

  /** A phase is safe for the running services exactly when they are ready for it. */
  lemma ReadyIsExact(s: System, c: Command)
    requires s.todo == [] && Invariant(s) && Callable(s.disk, c)
    ensures var s1 := s.(todo := Plan(s.disk, c));
      Ready(s, c) <==> forall acts :: NoCall(acts) && Allowed(s1, acts) ==> Agrees(After(s1, acts))
  {
    hide Good, Callable, Plan, Agrees, NoCall, Enabled, Next, Ready;
    var s1 := s.(todo := Plan(s.disk, c));
    if Ready(s, c) {
      CallInvariant(s, c);
      forall acts | NoCall(acts) && Allowed(s1, acts) ensures Agrees(After(s1, acts)) {
        NeverDisagree(s1, acts);
      }
    } else {
      UnreadyIsGood(s, c);
      var k :| Good(s, k);
      if c.Issue? {
        var acts := UnreadyIssueBreaks(s, k, c.dirs, c.supply);
      } else {
        var acts := UnreadyRetireBreaks(s, k, c.dirs);
      }
    }
  }

  lemma CallInvariant(s: System, c: Command)
    requires s.todo == [] && Invariant(s) && Callable(s.disk, c) && Ready(s, c)
    ensures Invariant(s.(todo := Plan(s.disk, c)))
  {
    hide Good, Callable, Ready, Plan;
    assert Enabled(s, Call(c));
    StepKeeps(s, Call(c));
  }

  lemma UnreadyIsGood(s: System, c: Command)
    requires s.todo == [] && Invariant(s) && Callable(s.disk, c) && !Ready(s, c)
    ensures (c.Issue? || c.Retire?) && s != NOTHING && exists k :: Good(s, k)
  {
    hide Good;
  }

  /** A command run to its end, without anybody looking, keeps the invariant. */
  lemma CommandRuns(s: System, c: Command)
    requires s.todo == [] && Invariant(s) && Callable(s.disk, c) && Ready(s, c)
    ensures Invariant(s.(disk := ApplyAll(s.disk, Plan(s.disk, c))))
  {
    hide Good, Callable, Ready, Plan, ApplyAll, Enabled, Next, Agrees;
    var s1 := s.(todo := Plan(s.disk, c));
    var s2 := s.(disk := ApplyAll(s.disk, Plan(s.disk, c)));
    CallInvariant(s, c);
    WriteAll(s1, []);
    NeverDisagree(s1, Writes(|s1.todo|) + []);
    assert After(s2, []) == s2;
  }

  /** Skipping the restart after `trust`: a service that has not read the new bundle makes `issue` lead to a disagreement. */
  lemma SkippedRestart(s: System, n: Name, dirs: seq<Name>, ca: Ca, supply: Supply)
    requires s.todo == [] && Invariant(s) && n in s.live && ca !in s.live[n].bundle
    requires Callable(s.disk, Trust(dirs, ca)) && s.disk.next.None?
    ensures var s1 := s.(disk := ApplyAll(s.disk, Plan(s.disk, Trust(dirs, ca))));
      && Callable(s1.disk, Issue(dirs, supply)) && !Ready(s1, Issue(dirs, supply))
      && exists acts :: NoCall(acts) && Allowed(s1.(todo := Plan(s1.disk, Issue(dirs, supply))), acts)
           && !Agrees(After(s1.(todo := Plan(s1.disk, Issue(dirs, supply))), acts))
  {
    hide ApplyAll, Plan, Settled, Invariant, NoCall, Allowed, After, Agrees, BundleOf, Listed;
    TrustReached(s.disk, dirs, ca);
    CommandSettles(s.disk, Trust(dirs, ca));
    CommandRuns(s, Trust(dirs, ca));
    ReadyIsExact(s.(disk := ApplyAll(s.disk, Plan(s.disk, Trust(dirs, ca)))), Issue(dirs, supply));
  }

  /** In the middle of a command a directory can hold a certificate and another one's key. */
  lemma TornPair(d: Disk, n: Name, leaf: Leaf, bundle: seq<Ca>)
    requires n in d.key && d.key[n] != leaf.key
    ensures var ws := WriteLeaf(n, leaf, bundle); var torn := ApplyAll(d, ws[..1]);
      && ApplyAll(torn, ws[1..]) == ApplyAll(d, ws)
      && n in torn.crt && n in torn.key && torn.key[n] != torn.crt[n].key
  {
    var ws := WriteLeaf(n, leaf, bundle);
    ApplyPlus(d, ws[..1], ws[1..]);
    assert ws[..1] + ws[1..] == ws && ws[..1][1..] == [];
  }

  // ---------------------------------------------------------------- the program

  /** The directory the commands work on; `log` remembers every write in order. */
  class Root {
    var disk: Disk
    ghost var log: seq<Write>

    constructor ()
      ensures disk == EMPTY && log == []
    {
      disk, log := EMPTY, [];
    }

    method Put(w: Write)
      modifies this
      ensures disk == Apply(old(disk), w) && log == old(log) + [w]
    {
      disk := Apply(disk, w);
      log := log + [w];
    }

    /** The two facts every command promises: what it wrote, in order, and so what the disk is. */
    twostate predicate Wrote(ws: seq<Write>)
      reads this
    {
      disk == ApplyAll(old(disk), ws) && log == old(log) + ws
    }

    method PutLeaf(n: Name, leaf: Leaf, bundle: seq<Ca>)
      modifies this
      ensures Wrote(WriteLeaf(n, leaf, bundle))
    {
      Thrice(disk, TlsCrt(n, leaf), TlsKey(n, leaf.key), CaBundle(n, bundle));
      Put(TlsCrt(n, leaf));
      Put(TlsKey(n, leaf.key));
      Put(CaBundle(n, bundle));
    }

    method PutBundles(dirs: seq<Name>, bundle: seq<Ca>)
      modifies this
      ensures Wrote(WriteBundles(dirs, bundle))
    {
      ghost var ws := WriteBundles(dirs, bundle);
      assert dirs[0..] == dirs;
      for i := 0 to |dirs|
        invariant ApplyAll(disk, WriteBundles(dirs[i..], bundle)) == ApplyAll(old(disk), ws)
        invariant log + WriteBundles(dirs[i..], bundle) == old(log) + ws
      {
        ghost var rest := WriteBundles(dirs[i + 1..], bundle);
        assert dirs[i..][1..] == dirs[i + 1..];
        assert ([CaBundle(dirs[i], bundle)] + rest)[1..] == rest;
        Assoc(log, [CaBundle(dirs[i], bundle)], rest);
        Put(CaBundle(dirs[i], bundle));
      }
    }

    /** `init` without `--force`: `servers` are the services with a server certificate. */
    method Init(services: seq<string>, servers: set<string>, ca: Ca, supply: Supply)
      requires Callable(disk, Command.Init(services, servers, ca, supply))
      modifies this
      ensures Wrote(Plan(old(disk), Command.Init(services, servers, ca, supply)))
    {
      hide Plan, Callable, WriteLeaves, FirstLeaves, ApplyAll, Apply, DirsOf;
      InitPlan(disk, Command.Init(services, servers, ca, supply));
      if disk.ca.Some? {
        NoWrites(disk);
        return;
      }
      ghost var dirs, leaves := DirsOf(services), FirstLeaves(ca, services, servers, supply);
      ghost var ws := WriteLeaves(dirs, leaves, [ca]);
      Twice(disk, CaKey(ca.key), CaCrt(ca), ws);
      Put(CaKey(ca.key));
      Put(CaCrt(ca));
      Assoc(old(log), [CaKey(ca.key), CaCrt(ca)], ws);
      PutFirst(services, servers, ca, supply);
    }

    /** The loop of `init`. */
    method PutFirst(services: seq<string>, servers: set<string>, ca: Ca, supply: Supply)
      modifies this
      ensures Wrote(WriteLeaves(DirsOf(services), FirstLeaves(ca, services, servers, supply), [ca]))
    {
      hide Apply, LooksServer, WriteLeaves, WriteLeaf;
      ghost var dirs, leaves := DirsOf(services), FirstLeaves(ca, services, servers, supply);
      ghost var ws := WriteLeaves(dirs, leaves, [ca]);
      assert dirs[0..] == dirs;
      for i := 0 to |services|
        invariant ApplyAll(disk, WriteLeaves(dirs[i..], leaves, [ca])) == ApplyAll(old(disk), ws)
        invariant log + WriteLeaves(dirs[i..], leaves, [ca]) == old(log) + ws
      {
        var n := [services[i]];
        var leaf := MakeLeaf(ca, ca.key, services[i], supply.key(n), services[i] in servers, supply.extra);
        FirstWrites(services, i, leaves, [ca]);
        assert leaves[n] == leaf;
        ghost var rest := WriteLeaves(dirs[i + 1..], leaves, [ca]);
        ApplyPlus(disk, WriteLeaf(n, leaf, [ca]), rest);
        Assoc(log, WriteLeaf(n, leaf, [ca]), rest);
        PutLeaf(n, leaf, [ca]);
      }
      NoLeaves(dirs[|services|..], leaves, [ca]);
    }

    /** `renew`: the name and kind of each certificate are read back from the old one. */
    method RenewAll(dirs: seq<Name>, supply: Supply)
      requires disk.ca.Some? && disk.caKey.Some? && Lists(dirs, disk)
      modifies this
      ensures Wrote(WriteLeaves(dirs, Renewed(old(disk).ca.value, old(disk).caKey.value, old(disk).crt, supply), BundleOf(old(disk))))
    {
      hide Listed, BundleOf, LooksServer, MakeLeaf;
      var ca, caKey, bundle := disk.ca.value, disk.caKey.value, BundleOf(disk);
      ghost var leaves := Renewed(ca, caKey, disk.crt, supply);
      ghost var ws := WriteLeaves(dirs, leaves, bundle);
      assert dirs[0..] == dirs;
      for i := 0 to |dirs|
        invariant forall j :: i <= j < |dirs| ==> dirs[j] in disk.crt && disk.crt[dirs[j]] == old(disk).crt[dirs[j]]
        invariant ApplyAll(disk, WriteLeaves(dirs[i..], leaves, bundle)) == ApplyAll(old(disk), ws)
        invariant log + WriteLeaves(dirs[i..], leaves, bundle) == old(log) + ws
      {
        var n := dirs[i];
        var leaf := MakeLeaf(ca, caKey, disk.crt[n].subject, supply.key(n), LooksServer(disk.crt[n]), supply.extra);
        assert leaf == leaves[n];
        assert dirs[i..][1..] == dirs[i + 1..];
        ghost var rest := WriteLeaves(dirs[i + 1..], leaves, bundle);
        ApplyPlus(disk, WriteLeaf(n, leaf, bundle), rest);
        Assoc(log, WriteLeaf(n, leaf, bundle), rest);
        ApplyLeaf(disk, n, leaf, bundle);
        PutLeaf(n, leaf, bundle);
      }
    }

    method Client(name: string, key: nat)
      requires Callable(disk, NewClient(name, key))
      modifies this
      ensures Wrote(Plan(old(disk), NewClient(name, key)))
    {
      PutLeaf(ClientDir(name).value, ClientLeaf(disk, name, key), BundleOf(disk));
    }

    /** `rotate_ca`, one method for each phase. */
    method RotateTrust(dirs: seq<Name>, ca: Ca)
      requires Callable(disk, Trust(dirs, ca))
      modifies this
      ensures Wrote(Plan(old(disk), Trust(dirs, ca)))
    {
      if disk.next.Some? { return; }
      ghost var ws := WriteBundles(dirs, BundleOf(disk.(next := Some(ca))));
      Twice(disk, NextKey(ca.key), NextCrt(ca), ws);
      Put(NextKey(ca.key));
      Put(NextCrt(ca));
      assert log + ws == old(log) + ([NextKey(ca.key), NextCrt(ca)] + ws);
      PutBundles(dirs, BundleOf(disk));
    }

    method RotateIssue(dirs: seq<Name>, supply: Supply)
      requires Callable(disk, Issue(dirs, supply))
      modifies this
      ensures Wrote(Plan(old(disk), Issue(dirs, supply)))
    {
      if disk.next.None? { return; }
      hide Settled, WriteLeaves, Renewed, BundleOf, ApplyAll, Lists;
      ghost var d := disk;
      PromotedFits(d, dirs, supply);
      ghost var head := [KeepPrevious, PromoteCrt, PromoteKey];
      ghost var ws := WriteLeaves(dirs, Renewed(d.next.value, d.nextKey.value, d.crt, supply), BundleOf(Promoted(d)));
      Thrice(d, KeepPrevious, PromoteCrt, PromoteKey);
      ApplyPlus(d, head, ws);
      Put(KeepPrevious);
      Put(PromoteCrt);
      Put(PromoteKey);
      assert disk == Promoted(d);
      assert log + ws == old(log) + (head + ws);
      RenewAll(dirs, supply);
    }

    method RotateRetire(dirs: seq<Name>)
      requires Callable(disk, Retire(dirs))
      modifies this
      ensures Wrote(Plan(old(disk), Retire(dirs)))
    {
      if disk.previous.None? { return; }
      ghost var ws := WriteBundles(dirs, BundleOf(disk.(previous := None)));
      ApplyPlus(disk, [DropPrevious], ws);
      assert [DropPrevious][1..] == [];
      Put(DropPrevious);
      assert log + ws == old(log) + ([DropPrevious] + ws);
      PutBundles(dirs, BundleOf(disk));
    }
  }

  lemma InitPlan(d: Disk, c: Command)
    requires c.Init? && Callable(d, c)
    ensures forall n :: n in DirsOf(c.services) ==> n in FirstLeaves(c.ca, c.services, c.servers, c.supply)
    ensures Plan(d, c) ==
      if d.ca.Some? then []
      else [CaKey(c.ca.key), CaCrt(c.ca)] + WriteLeaves(DirsOf(c.services), FirstLeaves(c.ca, c.services, c.servers, c.supply), [c.ca])
  {
  }

  lemma NoWrites(d: Disk)
    ensures ApplyAll(d, []) == d
  {
  }

  lemma NoLeaves(dirs: seq<Name>, leaves: map<Name, Leaf>, bundle: seq<Ca>)
    requires dirs == []
    ensures WriteLeaves(dirs, leaves, bundle) == []
  {
  }

  lemma FirstWrites(services: seq<string>, i: nat, leaves: map<Name, Leaf>, bundle: seq<Ca>)
    requires i < |services| && forall n :: n in DirsOf(services) ==> n in leaves
    ensures var dirs := DirsOf(services);
      && [services[i]] in leaves
      && WriteLeaves(dirs[i..], leaves, bundle)
         == WriteLeaf([services[i]], leaves[[services[i]]], bundle) + WriteLeaves(dirs[i + 1..], leaves, bundle)
  {
    var dirs := DirsOf(services);
    assert dirs[i..][1..] == dirs[i + 1..] && dirs[i] == [services[i]] && dirs[i] in dirs;
  }

  lemma PromotedFits(d: Disk, dirs: seq<Name>, supply: Supply)
    requires Callable(d, Issue(dirs, supply)) && d.next.Some?
    ensures d.nextKey.Some? && Lists(dirs, Promoted(d))
    ensures forall n :: n in dirs ==> n in Renewed(d.next.value, d.nextKey.value, d.crt, supply)
  {
  }
}
