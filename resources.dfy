/** The resource records a compile produces: managed files, one-shot
    commands, services, Augeas edits and packages. They only describe what
    should exist; applying them is left to the host. */
module Resources {
  import opened Wrappers

  const ScriptsDir: string := "/etc/sysconfig/network-scripts/"
  const FileMode: string := "0644"

  datatype FileState = Present | Removed

  datatype File = File(
    name: string,
    path: string,
    ensure: FileState,
    mode: string,
    owner: string,
    group: string,
    content: seq<string>,
    notify: Option<string>)

  datatype Exec = Exec(
    name: string,
    command: string,
    refreshonly: bool,
    user: Option<string>,
    group: Option<string>)

  datatype Service = Service(
    name: string,
    ensure: string,
    enable: bool,
    hasrestart: bool,
    hasstatus: bool)

  datatype Augeas = Augeas(name: string, context: string, changes: seq<string>, onlyif: string)

  datatype Catalog = Catalog(
    files: seq<File>,
    execs: seq<Exec>,
    services: seq<Service>,
    augeas: seq<Augeas>,
    packages: seq<string>)

  const EmptyCatalog: Catalog := Catalog([], [], [], [], [])

  /** Every network-scripts file: under the scripts directory, mode 0644,
      owned by root:root. */
  predicate Conventional(f: File) {
    f.path == ScriptsDir + f.name && f.mode == FileMode && f.owner == "root" && f.group == "root"
  }

  function ScriptFile(name: string, content: seq<string>, notify: Option<string>): (f: File)
    ensures Conventional(f) && f.ensure == Present
    ensures f.name == name && f.content == content && f.notify == notify
  {
    File(name, ScriptsDir + name, Present, FileMode, "root", "root", content, notify)
  }

  /** A removed file keeps its path and its notification but has no
      content. */
  function RemovedFile(name: string, notify: Option<string>): (f: File)
    ensures Conventional(f) && f.ensure == Removed && f.content == []
    ensures f.name == name && f.notify == notify
  {
    File(name, ScriptsDir + name, Removed, FileMode, "root", "root", [], notify)
  }

  function ServiceRef(name: string): (r: string) {
    "Service[" + name + "]"
  }

  function ExecRef(name: string): (r: string) {
    "Exec[" + name + "]"
  }

  /** The notification of a file: its target when `restart` holds, none
      otherwise. */
  function Notify(restart: bool, target: string): (r: Option<string>)
    ensures restart ==> r == Some(target)
    ensures !restart ==> r == None
  {
    if restart then Some(target) else None
  }

  function Merge(a: Catalog, b: Catalog): (r: Catalog) {
    Catalog(a.files + b.files, a.execs + b.execs, a.services + b.services, a.augeas + b.augeas, a.packages + b.packages)
  }

  function FileNames(fs: seq<File>): (r: seq<string>) {
    seq(|fs|, i requires 0 <= i < |fs| => fs[i].name)
  }

  function Unnotified(f: File): (r: File) {
    f.(notify := None)
  }

  /** The catalog with every notification dropped: what stays the same
      whatever the restart flag says. */
  function Quiet(c: Catalog): (q: Catalog)
    ensures |q.files| == |c.files|
    ensures forall i :: 0 <= i < |c.files| ==> q.files[i] == c.files[i].(notify := None)
    ensures q.execs == c.execs && q.services == c.services && q.augeas == c.augeas && q.packages == c.packages
  {
    c.(files := seq(|c.files|, i requires 0 <= i < |c.files| => Unnotified(c.files[i])))
  }

  predicate AllConventional(c: Catalog) {
    forall i :: 0 <= i < |c.files| ==> Conventional(c.files[i])
  }

  predicate NoneNotify(c: Catalog) {
    forall i :: 0 <= i < |c.files| ==> c.files[i].notify.None?
  }

  predicate AllNotify(c: Catalog, target: string) {
    forall i :: 0 <= i < |c.files| ==> c.files[i].notify == Some(target)
  }
}
