/** The main window's own logic: the row items of the tunnel list, which
    buttons are enabled, the command preview, and what the Add, Copy and
    Properties buttons do to the registry and to the configuration files.
    The dialogs are not run here: what they return (the chosen name, the
    properties window's fields and rows) is an input of each handler. */
module MainWindow {
  import opened Wrappers
  import opened Text
  import opened Models
  import opened Registry
  import opened Config
  import Ssh
  import Properties

  // ----- List rows -----

  /** `TunnelItem`: one row of the tunnel list. `isInactive` is a second
      field that the `Active` setter keeps equal to `!active`. */
  class TunnelItem {
    var name: string
    var active: bool
    var isInactive: bool

    predicate Consistent()
      reads this
    {
      isInactive == !active
    }

    /** `new TunnelItem()`: both flags keep their default, false, so the
        row is not consistent until `Active` is set once. */
    constructor Default()
      ensures name == "" && !active && !isInactive && !Consistent()
    {
      name := "";
      active := false;
      isInactive := false;
    }

    /** `new TunnelItem { Name = name, Active = false }`. */
    constructor(name: string)
      ensures this.name == name && !active && Consistent()
    {
      this.name := name;
      active := false;
      isInactive := false;
      new;
      SetActive(false);
    }

    /** The `Active` setter. */
    method SetActive(value: bool)
      modifies this
      ensures active == value && Consistent()
      ensures name == old(name)
    {
      active := value;
      isInactive := !value;
    }
  }

  predicate ItemsConsistent(items: seq<TunnelItem>)
    reads items
  {
    forall i :: 0 <= i < |items| ==> items[i].Consistent()
  }

  /** The list after removing the row at `k`, when there is one. */
  function RemoveAt<T>(s: seq<T>, k: int): (r: seq<T>)
    requires -1 <= k < |s|
    ensures k == -1 ==> r == s
    ensures k >= 0 ==> |r| == |s| - 1
  {
    if k == -1 then s else s[..k] + s[k + 1..]
  }

  // ----- Buttons -----

  datatype Buttons = Buttons(start: bool, stop: bool, delete: bool, properties: bool, copy: bool)

  /** `UpdateButtonStates`, given whether a row is selected and, if so,
      whether its tunnel is active. The Add button is never touched. */
  function ButtonStates(selectedActive: Option<bool>): (b: Buttons)
    ensures selectedActive.None? ==> b == Buttons(false, false, false, false, false)
    ensures selectedActive.Some? ==> b.delete && b.properties && b.copy
    ensures selectedActive.Some? ==> (b.start <==> !selectedActive.value) && (b.stop <==> selectedActive.value)
  {
    match selectedActive
    case None => Buttons(false, false, false, false, false)
    case Some(active) => Buttons(!active, active, true, true, true)
  }

  /** With a row selected, exactly one of Start and Stop can be pressed,
      and never Start on a running tunnel; with none, no button but Add. */
  lemma StartStopExclusive(selectedActive: Option<bool>)
    ensures selectedActive.Some? ==> ButtonStates(selectedActive).start != ButtonStates(selectedActive).stop
    ensures selectedActive.Some? && selectedActive.value ==> !ButtonStates(selectedActive).start
    ensures selectedActive.None? ==>
      var b := ButtonStates(selectedActive);
      !(b.start || b.stop || b.delete || b.properties || b.copy)
  {
  }

  // ----- Command preview -----

  /** The parts `BuildSshCommandDisplay` joins: "ssh", the host, `-p` with
      the port, `-i` with the key only when it is usable, `-l` with the
      login, "-nN", the forwarding tokens, then the two `-o` options. The
      tunnel's preset flag plays no part. */
  function PreviewParts(t: SshTunnel): seq<string> {
    ["ssh", t.host, "-p", t.port] + Ssh.OptionPair("-i", t.privateKeyPath)
    + ["-l", t.login, "-nN"] + Ssh.ForwardTokens(t.portRedirections) + Ssh.ConnectionOptions
  }

  function CommandDisplay(t: SshTunnel): string {
    Join(" ", PreviewParts(t))
  }

  /** Where the fixed parts of the preview sit: "-p" and "-l" are always
      there, whatever the port and the login are, and the preview ends
      with the two `-o` options. */
  lemma PreviewShape(t: SshTunnel)
    ensures var ps := PreviewParts(t); var k := |Ssh.OptionPair("-i", t.privateKeyPath)|;
      |ps| >= 11 && ps[0] == "ssh" && ps[1] == t.host && ps[2] == "-p" && ps[3] == t.port
      && ps[4 + k] == "-l" && ps[5 + k] == t.login && ps[6 + k] == "-nN"
      && ps[|ps| - 4..] == Ssh.ConnectionOptions
  {
  }

  /** The forwarding tokens of the preview, in list order, right after
      "-nN". */
  lemma PreviewForwards(t: SshTunnel)
    ensures var ps := PreviewParts(t); var k := 7 + |Ssh.OptionPair("-i", t.privateKeyPath)|;
      ps[k..|ps| - 4] == Ssh.ForwardTokens(t.portRedirections)
  {
  }

  /** The preview does not depend on the preset flag. */
  lemma PreviewIgnoresPreset(t: SshTunnel, preset: bool)
    ensures PreviewParts(t.(preset := preset)) == PreviewParts(t)
  {
  }

  /** For a preset tunnel the preview shows a port the real command does
      not pass: `-p` never follows the host in the argument vector. */
  lemma PreviewDiffersForPreset(t: SshTunnel)
    requires t.preset
    ensures PreviewParts(t)[2] == "-p"
    ensures forall i :: 1 <= i < |Ssh.SshArgs(t)| ==> Ssh.SshArgs(t)[i] != "-p"
  {
    Ssh.PresetArgs(t);
  }

  /** A one-character port is shown in the preview but dropped from the
      real command. */
  lemma PreviewShowsShortPort(t: SshTunnel)
    requires !t.preset && |t.port| == 1
    ensures PreviewParts(t)[2..4] == ["-p", t.port]
    ensures Ssh.SshArgs(t)[2] != "-p"
  {
    Ssh.ManualArgs(t);
  }

  /** Outside preset mode, with a usable port, key and login, the preview
      holds the same words as "ssh" followed by the real argument vector,
      only in another order. */
  lemma PreviewIsArgsReordered(t: SshTunnel)
    requires !t.preset
    requires !IsBlank(t.port) && |t.port| > 1 && !IsBlank(t.login) && |t.login| > 1
    ensures multiset(PreviewParts(t)) == multiset(["ssh"] + Ssh.SshArgs(t))
  {
    var p := ["-p", t.port];
    var key := Ssh.OptionPair("-i", t.privateKeyPath);
    var l := ["-l", t.login];
    var fw := Ssh.ForwardTokens(t.portRedirections);
    var opts := Ssh.ConnectionOptions;
    PreviewGrouped(t);
    ArgsGrouped(t);
    Reordered(["ssh", t.host], p, key, l, ["-nN"], fw, opts);
  }

  lemma PreviewGrouped(t: SshTunnel)
    ensures PreviewParts(t) == ["ssh", t.host] + ["-p", t.port] + Ssh.OptionPair("-i", t.privateKeyPath)
                               + ["-l", t.login] + ["-nN"] + Ssh.ForwardTokens(t.portRedirections) + Ssh.ConnectionOptions
  {
  }

  lemma ArgsGrouped(t: SshTunnel)
    requires !t.preset
    requires !IsBlank(t.port) && |t.port| > 1 && !IsBlank(t.login) && |t.login| > 1
    ensures ["ssh"] + Ssh.SshArgs(t) == ["ssh", t.host] + ["-nN"] + ["-p", t.port] + Ssh.OptionPair("-i", t.privateKeyPath)
                                         + ["-l", t.login] + Ssh.ConnectionOptions + Ssh.ForwardTokens(t.portRedirections)
  {
    Ssh.ManualArgs(t);
  }

  lemma Reordered<T>(a: seq<T>, p: seq<T>, k: seq<T>, l: seq<T>, n: seq<T>, f: seq<T>, o: seq<T>)
    ensures multiset(a + p + k + l + n + f + o) == multiset(a + n + p + k + l + o + f)
  {
  }

  // ----- Handler effects -----

  /** The tunnel Add registers before the properties dialog opens. */
  function AddedTunnel(name: string): (t: SshTunnel)
    ensures t.name == name && t.host == "" && t.port == "22" && t.login == "" && t.privateKeyPath == ""
    ensures !t.autoStart && t.restart && t.notify && t.maxRestarts == "9" && !t.preset
    ensures t.portRedirections == [] && !t.active && t.sshPid == 0 && t.fileName.None?
  {
    NewSshTunnel().(name := name, restart := true)
  }

  /** The only default Add changes: a new tunnel restarts. */
  lemma AddedTunnelRestarts(name: string)
    ensures AddedTunnel(name) == NewSshTunnel().(name := name, restart := true)
    ensures !NewSshTunnel().restart
  {
  }

  /** The deep copy Copy builds: the new name, every other configuration
      field and the forwardings in order from the original, no runtime
      state and no file. */
  function CopyOf(original: SshTunnel, name: string): (c: SshTunnel)
    ensures Persistent(c) == Persistent(original).(name := name)
    ensures c.portRedirections == original.portRedirections
    ensures !c.active && c.sshPid == 0 && c.fileName.None?
  {
    SshTunnel(name, original.host, original.port, original.login, original.privateKeyPath,
              original.autoStart, original.restart, original.notify, original.maxRestarts,
              original.preset, original.portRedirections, false, 0, None)
  }

  /** A copy under the original's own name is the original with its
      runtime state and file reset. */
  lemma CopyUnderSameName(original: SshTunnel)
    ensures CopyOf(original, original.name) == Persistent(original)
  {
  }

  /** What the properties window holds when OK is pressed: the view
      model's scalar fields and its forwarding rows. */
  datatype DialogFields = DialogFields(props: Properties.Props, rows: seq<PortRedirection>)

  /** The properties window's OK handler: a new tunnel built from the
      fields and the rows, so inactive with pid 0, carrying the file name
      of the tunnel the window was opened for. It differs from the view
      model's own result only by that file name. */
  function DialogResult(existing: SshTunnel, d: DialogFields): (r: SshTunnel)
    ensures r.fileName == existing.fileName
    ensures !r.active && r.sshPid == 0
    ensures r.(fileName := None) == Properties.TunnelOf(d.props, d.rows)
  {
    Properties.TunnelOf(d.props, d.rows).(fileName := existing.fileName)
  }

  /** Opening the window on a tunnel and pressing OK at once gives back its
      configuration and its file name, but never its runtime state. */
  lemma WindowEditThenOk(t: SshTunnel)
    ensures DialogResult(t, DialogFields(Properties.PropsOf(t), t.portRedirections))
            == Persistent(t).(fileName := t.fileName)
  {
    Properties.EditThenOkKeepsConfiguration(t);
  }

  /** Editing a running tunnel replaces its registry entry by an inactive
      one with pid 0, whatever the old entry's runtime state. */
  lemma EditDropsRuntimeState(m: map<string, SshTunnel>, oldName: string, d: DialogFields,
                              randomName: string, invalid: set<char>)
    requires oldName in m
    ensures var r := DialogResult(m[oldName], d);
      var m' := PropertiesEffect(m, oldName, r, randomName, invalid);
      r.name in m' && !m'[r.name].active && m'[r.name].sshPid == 0
  {
  }

  /** The registry after Add: the placeholder under the chosen name, then
      the dialog's result under its own name, or, when the dialog is
      cancelled, the placeholder removed again. */
  function AddEffect(m: map<string, SshTunnel>, name: string, result: Option<SshTunnel>,
                     randomName: string, invalid: set<char>): map<string, SshTunnel>
  {
    var placed := m[name := AddedTunnel(name)];
    match result
    case None => placed - {name}
    case Some(r) => placed[r.name := SavedTunnel(r, randomName, invalid)]
  }

  /** Cancelling the properties dialog of a new tunnel leaves the registry
      as it was, since the name dialog only hands out new names. */
  lemma AddCancelledRestores(m: map<string, SshTunnel>, name: string, randomName: string, invalid: set<char>)
    requires name !in m
    ensures AddEffect(m, name, None, randomName, invalid) == m
  {
    assert AddEffect(m, name, None, randomName, invalid).Keys == m.Keys;
  }

  /** Renaming the new tunnel inside its properties dialog stores the
      result under the new name and leaves the placeholder with the
      defaults behind under the name first chosen. */
  lemma AddRenamedKeepsPlaceholder(m: map<string, SshTunnel>, name: string, r: SshTunnel,
                                   randomName: string, invalid: set<char>)
    requires r.name != name
    ensures var m' := AddEffect(m, name, Some(r), randomName, invalid);
      name in m' && m'[name] == AddedTunnel(name) && r.name in m' && Persistent(m'[r.name]) == Persistent(r)
  {
  }

  /** The registry after a rename, or an edit, in the properties dialog. */
  function PropertiesEffect(m: map<string, SshTunnel>, oldName: string, r: SshTunnel,
                            randomName: string, invalid: set<char>): map<string, SshTunnel>
  {
    var kept := if oldName != r.name then m - {oldName} else m;
    kept[r.name := SavedTunnel(r, randomName, invalid)]
  }

  /** A rename moves the entry: the old key is gone, the new one holds the
      edited tunnel and every other entry stays. */
  lemma RenameMovesEntry(m: map<string, SshTunnel>, oldName: string, r: SshTunnel,
                         randomName: string, invalid: set<char>)
    requires oldName != r.name
    ensures var m' := PropertiesEffect(m, oldName, r, randomName, invalid);
      oldName !in m' && r.name in m' && Persistent(m'[r.name]) == Persistent(r)
      && forall k :: k in m && k != oldName && k != r.name ==> k in m' && m'[k] == m[k]
  {
  }

  /** The files after the Properties handler AS WRITTEN: after a
      successful save of a renamed tunnel the old file is deleted, even
      though the save wrote to that same file. `deleteFails` is the
      `File.Delete` failure that `DeleteTunnelAsync` catches, which leaves
      the files as they are. */
  function PropertiesFilesAsWritten(files: map<string, Option<XDocument>>, oldName: string,
                                    oldFileName: Option<string>, r: SshTunnel, randomName: string,
                                    invalid: set<char>, writeFails: bool,
                                    deleteFails: bool): map<string, Option<XDocument>>
  {
    var saved := SavedFiles(files, r, randomName, invalid, writeFails);
    if SaveSucceeds(r, randomName, invalid, writeFails) && oldName != r.name
       && oldFileName.Some? && oldFileName.value != "" && !deleteFails
    then saved - {oldFileName.value}
    else saved
  }

  /** As written, renaming a tunnel that has a file deletes the file it was
      just saved to (when the delete goes through): the registry entry names a file that no longer
      exists, and no tunnel loads from it any more. */
  lemma RenameDeletesSavedFile(files: map<string, Option<XDocument>>, oldName: string, f: string,
                               d: DialogFields, existing: SshTunnel, randomName: string,
                               invalid: set<char>, order: seq<string>)
    requires existing.fileName == Some(f) && f != "" && d.props.name != oldName
    ensures var r := DialogResult(existing, d);
      var fs := PropertiesFilesAsWritten(files, oldName, existing.fileName, r, randomName, invalid, false, false);
      SavedTunnel(r, randomName, invalid).fileName == Some(f) && f !in fs
      && forall u :: u in LoadedFrom(fs, order) ==> u.fileName != Some(f)
  {
    var r := DialogResult(existing, d);
    var fs := PropertiesFilesAsWritten(files, oldName, existing.fileName, r, randomName, invalid, false, false);
    LoadedFromFiles(fs, order);
  }

  /** Corrected, the handler keeps the file the save wrote to, and the
      renamed tunnel reloads, under its new name, from the file its
      registry entry names. */
  lemma RenamedTunnelReloads(files: map<string, Option<XDocument>>, f: string,
                             d: DialogFields, existing: SshTunnel, randomName: string, invalid: set<char>)
    requires existing.fileName == Some(f) && f != ""
    ensures var r := DialogResult(existing, d);
      var fs := SavedFiles(files, r, randomName, invalid, false);
      SavedTunnel(r, randomName, invalid).fileName == Some(f)
      && LoadedOne(fs, f) == [Properties.TunnelOf(d.props, d.rows).(fileName := Some(f))]
  {
    var r := DialogResult(existing, d);
    SavedFileLoads(files, f, r);
    assert Persistent(r) == Properties.TunnelOf(d.props, d.rows);
  }

  // ----- The window -----

  class MainWindowView {
    const registry: GstmTunnels
    const config: ConfigService
    /** `_tunnels`, the rows of the tunnel list. */
    var items: seq<TunnelItem>
    var btnStart: bool
    var btnStop: bool
    var btnDelete: bool
    var btnProperties: bool
    var btnCopy: bool

    constructor(registry: GstmTunnels, config: ConfigService)
      ensures this.registry == registry && this.config == config && items == []
      ensures ItemsConsistent(items)
    {
      this.registry := registry;
      this.config := config;
      items := [];
      btnStart := false;
      btnStop := false;
      btnDelete := false;
      btnProperties := false;
      btnCopy := false;
    }

    /** `UpdateButtonStates`. */
    method UpdateButtonStates(selected: Option<TunnelItem>)
      modifies this
      ensures Buttons(btnStart, btnStop, btnDelete, btnProperties, btnCopy)
              == ButtonStates(if selected.Some? then Some(selected.value.active) else None)
      ensures items == old(items)
    {
      if selected.Some? {
        btnDelete := true;
        btnProperties := true;
        btnCopy := true;
        btnStart := !selected.value.active;
        btnStop := selected.value.active;
      } else {
        btnStart := false;
        btnStop := false;
        btnDelete := false;
        btnProperties := false;
        btnCopy := false;
      }
    }

    /** `BuildSshCommandDisplay`. */
    method BuildSshCommandDisplay(t: SshTunnel) returns (display: string)
      ensures display == CommandDisplay(t)
    {
      var parts := ["ssh", t.host];
      parts := parts + ["-p", t.port];
      if !IsBlank(t.privateKeyPath) && |t.privateKeyPath| > 1 {
        parts := parts + ["-i", t.privateKeyPath];
      }
      ghost var head := ["ssh", t.host, "-p", t.port] + Ssh.OptionPair("-i", t.privateKeyPath);
      assert parts == head;
      parts := parts + ["-l", t.login];
      parts := parts + ["-nN"];
      assert parts == head + ["-l", t.login, "-nN"];
      parts := Ssh.AddForwardings(parts, t.portRedirections);
      parts := parts + ["-o", "ConnectTimeout=5"];
      parts := parts + ["-o", "NumberOfPasswordPrompts=1"];
      assert parts == head + ["-l", t.login, "-nN"] + Ssh.ForwardTokens(t.portRedirections) + Ssh.ConnectionOptions;
      display := Join(" ", parts);
    }

    /** `_tunnels.Remove(_tunnels.FirstOrDefault(t => t.Name == name))`:
        removes the first row named `name`, if there is one; `k` is its
        index, -1 for none. */
    method RemoveItemNamed(name: string) returns (k: int)
      modifies this
      ensures -1 <= k < |old(items)|
      ensures k >= 0 ==> old(items)[k].name == name
      ensures forall j :: 0 <= j < |old(items)| && (k == -1 || j < k) ==> old(items)[j].name != name
      ensures items == RemoveAt(old(items), k)
      ensures ItemsConsistent(old(items)) ==> ItemsConsistent(items)
      ensures btnStart == old(btnStart) && btnStop == old(btnStop) && btnDelete == old(btnDelete)
      ensures btnProperties == old(btnProperties) && btnCopy == old(btnCopy)
    {
      var i := 0;
      while i < |items|
        invariant 0 <= i <= |items|
        invariant forall j :: 0 <= j < i ==> items[j].name != name
      {
        if items[i].name == name {
          ghost var before := items;
          items := items[..i] + items[i + 1..];
          assert forall j :: 0 <= j < |items| ==> items[j] == if j < i then before[j] else before[j + 1];
          return i;
        }
        i := i + 1;
      }
      return -1;
    }

    /** `_gstmTunnels.Set(r.Name, r)` followed by `SaveTunnelAsync(r)`,
        which records the chosen file name on that same stored object. */
    method StoreAndSave(r: SshTunnel, randomName: string, invalid: set<char>, writeFails: bool)
      returns (ok: bool)
      modifies registry, config
      ensures registry.tunnels == old(registry.tunnels)[r.name := SavedTunnel(r, randomName, invalid)]
      ensures config.files == SavedFiles(old(config.files), r, randomName, invalid, writeFails)
      ensures ok == SaveSucceeds(r, randomName, invalid, writeFails)
    {
      registry.Set(r.name, r);
      var saved;
      ok, saved := config.SaveTunnel(r, randomName, invalid, writeFails);
      registry.Set(r.name, saved);
    }

    /** The first step of Add: the default tunnel is registered under the
        chosen name and an inactive row for it is appended. */
    method AddPlaceholder(name: string) returns (item: TunnelItem)
      modifies this, registry
      ensures registry.tunnels == old(registry.tunnels)[name := AddedTunnel(name)]
      ensures items == old(items) + [item] && fresh(item)
      ensures item.name == name && !item.active && item.Consistent()
      ensures ItemsConsistent(old(items)) ==> ItemsConsistent(items)
      ensures btnStart == old(btnStart) && btnStop == old(btnStop) && btnDelete == old(btnDelete)
      ensures btnProperties == old(btnProperties) && btnCopy == old(btnCopy)
    {
      registry.Set(name, AddedTunnel(name));
      item := new TunnelItem(name);
      items := items + [item];
    }

    /** Add cancelled in the properties dialog: the tunnel is removed from
        the registry and the first row with its name from the list. */
    method DropPlaceholder(name: string)
      modifies this, registry
      ensures registry.tunnels == old(registry.tunnels) - {name}
      ensures |old(items)| > 0 && old(items)[|old(items)| - 1].name == name
              && (forall j :: 0 <= j < |old(items)| - 1 ==> old(items)[j].name != name) ==>
        items == old(items)[..|old(items)| - 1]
      ensures ItemsConsistent(old(items)) ==> ItemsConsistent(items)
      ensures btnStart == old(btnStart) && btnStop == old(btnStop) && btnDelete == old(btnDelete)
      ensures btnProperties == old(btnProperties) && btnCopy == old(btnCopy)
    {
      var _ := registry.Remove(name);
      var _ := RemoveItemNamed(name);
    }

    /** `BtnAdd_Click`, given the name the name dialog accepted (none when
        it was cancelled) and the properties dialog's result (none when it
        was cancelled). */
    method BtnAdd(chosenName: Option<string>, edited: Option<DialogFields>,
                  randomName: string, invalid: set<char>, writeFails: bool)
      modifies this, registry, config
      ensures chosenName.None? || chosenName.value == "" ==>
        registry.tunnels == old(registry.tunnels) && config.files == old(config.files) && items == old(items)
      ensures chosenName.Some? && chosenName.value != "" ==>
        var name := chosenName.value;
        var result := if edited.Some? then Some(DialogResult(AddedTunnel(name), edited.value)) else None;
        registry.tunnels == AddEffect(old(registry.tunnels), name, result, randomName, invalid)
        && (edited.None? ==> config.files == old(config.files))
        && (edited.Some? ==> config.files == SavedFiles(old(config.files), result.value, randomName, invalid, writeFails))
      ensures chosenName.Some? && chosenName.value != "" && edited.None?
              && (forall j :: 0 <= j < |old(items)| ==> old(items)[j].name != chosenName.value) ==>
        items == old(items)
      ensures chosenName.Some? && chosenName.value != "" && edited.Some? ==>
        |items| == |old(items)| + 1 && items[..|old(items)|] == old(items)
        && fresh(items[|old(items)|]) && items[|old(items)|].name == chosenName.value
        && !items[|old(items)|].active && items[|old(items)|].Consistent()
      ensures ItemsConsistent(old(items)) ==> ItemsConsistent(items)
      ensures btnStart == old(btnStart) && btnStop == old(btnStop) && btnDelete == old(btnDelete)
      ensures btnProperties == old(btnProperties) && btnCopy == old(btnCopy)
    {
      if chosenName.None? || chosenName.value == "" {
        return;
      }
      var name := chosenName.value;
      var item := AddPlaceholder(name);
      if edited.Some? {
        var result := DialogResult(AddedTunnel(name), edited.value);
        var _ := StoreAndSave(result, randomName, invalid, writeFails);
      } else {
        ghost var before := items;
        DropPlaceholder(name);
        assert before[..|before| - 1] == old(items);
      }
    }

    /** `BtnCopy_Click`, given the selected row and the name the name
        dialog accepted. */
    method BtnCopy(selected: Option<TunnelItem>, chosenName: Option<string>,
                   randomName: string, invalid: set<char>, writeFails: bool)
      modifies this, registry, config
      ensures selected.None? || selected.value.name !in old(registry.tunnels)
              || chosenName.None? || chosenName.value == "" ==>
        registry.tunnels == old(registry.tunnels) && config.files == old(config.files) && items == old(items)
      ensures selected.Some? && selected.value.name in old(registry.tunnels)
              && chosenName.Some? && chosenName.value != "" ==>
        var copy := CopyOf(old(registry.tunnels)[selected.value.name], chosenName.value);
        registry.tunnels == old(registry.tunnels)[chosenName.value := SavedTunnel(copy, randomName, invalid)]
        && config.files == SavedFiles(old(config.files), copy, randomName, invalid, writeFails)
        && |items| == |old(items)| + 1 && items[..|old(items)|] == old(items)
        && fresh(items[|old(items)|]) && items[|old(items)|].name == chosenName.value
        && !items[|old(items)|].active && items[|old(items)|].Consistent()
      ensures ItemsConsistent(old(items)) ==> ItemsConsistent(items)
      ensures btnStart == old(btnStart) && btnStop == old(btnStop) && btnDelete == old(btnDelete)
      ensures btnProperties == old(btnProperties) && btnCopy == old(btnCopy)
    {
      if selected.None? {
        return;
      }
      var original := registry.TryGet(selected.value.name);
      if original.None? {
        return;
      }
      if chosenName.None? || chosenName.value == "" {
        return;
      }
      var name := chosenName.value;
      var o := original.value;
      var redirections := CopyRedirections(o.portRedirections);
      var copied := SshTunnel(name, o.host, o.port, o.login, o.privateKeyPath, o.autoStart, o.restart,
                              o.notify, o.maxRestarts, o.preset, redirections, false, 0, None);
      assert copied == CopyOf(o, name);
      var item := new TunnelItem(name);
      items := items + [item];
      var _ := StoreAndSave(copied, randomName, invalid, writeFails);
    }

    /** `BtnProperties_Click`, given the selected row and the properties
        dialog's result, corrected not to delete the file it has just
        saved to (`PropertiesFilesAsWritten` is the rule as written). */
    method BtnProperties(selected: Option<TunnelItem>, edited: Option<DialogFields>,
                         randomName: string, invalid: set<char>, writeFails: bool)
      modifies this, registry, config, if selected.Some? then {selected.value} else {}
      ensures selected.None? || old(selected.value.name) !in old(registry.tunnels) || edited.None? ==>
        registry.tunnels == old(registry.tunnels) && config.files == old(config.files)
        && (selected.Some? ==> selected.value.name == old(selected.value.name))
      ensures selected.Some? && old(selected.value.name) in old(registry.tunnels) && edited.Some? ==>
        var oldName := old(selected.value.name);
        var existing := old(registry.tunnels)[oldName];
        var r := DialogResult(existing, edited.value);
        selected.value.name == r.name
        && registry.tunnels == PropertiesEffect(old(registry.tunnels), oldName, r, randomName, invalid)
        && config.files == SavedFiles(old(config.files), r, randomName, invalid, writeFails)
        && !registry.tunnels[r.name].active && registry.tunnels[r.name].sshPid == 0
      ensures selected.Some? ==>
        selected.value.active == old(selected.value.active)
        && selected.value.isInactive == old(selected.value.isInactive)
      ensures items == old(items) && (ItemsConsistent(old(items)) ==> ItemsConsistent(items))
      ensures btnStart == old(btnStart) && btnStop == old(btnStop) && btnDelete == old(btnDelete)
      ensures btnProperties == old(btnProperties) && btnCopy == old(btnCopy)
    {
      if selected.None? {
        return;
      }
      var sel := selected.value;
      var tunnel := registry.TryGet(sel.name);
      if tunnel.None? || edited.None? {
        return;
      }
      var result := DialogResult(tunnel.value, edited.value);
      var oldName := sel.name;
      sel.name := result.name;
      if oldName != result.name {
        var _ := registry.Remove(oldName);
      }
      var _ := StoreAndSave(result, randomName, invalid, writeFails);
      // The result keeps the tunnel's file name, so the save wrote to the
      // old file: it is not deleted.
    }
  }

  /** The `foreach` of Copy that copies the forwardings one by one. */
  method CopyRedirections(rs: seq<PortRedirection>) returns (copies: seq<PortRedirection>)
    ensures copies == rs
  {
    copies := [];
    var i := 0;
    while i < |rs|
      invariant 0 <= i <= |rs|
      invariant copies == rs[..i]
    {
      var r := rs[i];
      copies := copies + [PortRedirection(r.kind, r.port1, r.host, r.port2)];
      assert rs[..i + 1] == rs[..i] + [rs[i]];
      i := i + 1;
    }
    assert rs[..|rs|] == rs;
  }
}
