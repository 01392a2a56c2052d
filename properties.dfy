/** The view model of the tunnel properties dialog: the connection and
    restart fields, the preset list read from the user's ssh client
    configuration, the list of forwardings and the validation that guards
    OK. */
module Properties {
  import opened Wrappers
  import opened Text
  import opened Models
  import Ssh

  // ----- Presets from the ssh client configuration -----

  /** What reading `~/.ssh/config` gives: no file, a read failure, or its
      lines. */
  datatype SshConfigFile = NoFile | Unreadable | Lines(lines: seq<string>)

  const NoPresetsAvailable: string := "No presets available"
  const NoPresetSelected: string := "No preset selected"

  /** `StartsWith("Host ", StringComparison.OrdinalIgnoreCase)`. */
  predicate IsHostLine(trimmed: string) {
    |trimmed| >= 5 && ToLower(trimmed[..5]) == "host "
  }

  /** The host a line declares, if it declares one without a wildcard. */
  function HostOfLine(line: string): (h: Option<string>)
    ensures h.Some? ==> '*' !in h.value
  {
    var trimmed := Trim(line);
    if IsHostLine(trimmed) then
      var hostName := Trim(trimmed[5..]);
      if hostName != "*" && '*' !in hostName then Some(hostName) else None
    else None
  }

  /** The declared values of `lines` under `f`, in order. */
  function Collect(f: string -> Option<string>, lines: seq<string>): seq<string> {
    if lines == [] then []
    else
      var h := f(lines[|lines| - 1]);
      Collect(f, lines[..|lines| - 1]) + (if h.Some? then [h.value] else [])
  }

  /** What is collected from consecutive parts is collected in order. */
  lemma {:induction false} CollectAppend(f: string -> Option<string>, a: seq<string>, b: seq<string>)
    ensures Collect(f, a + b) == Collect(f, a) + Collect(f, b)
    decreases |b|
  {
    if b == [] {
      assert a + b == a;
    } else {
      var init := b[..|b| - 1];
      assert (a + b)[..|a + b| - 1] == a + init;
      assert (a + b)[|a + b| - 1] == b[|b| - 1];
      CollectAppend(f, a, init);
    }
  }

  /** The hosts `ParseSshConfig` collects, in file order. */
  function HostsOf(lines: seq<string>): seq<string> {
    Collect(HostOfLine, lines)
  }

  /** A usable preset host: non-empty, without a wildcard and without
      surrounding whitespace. */
  predicate IsHostName(h: string) {
    h != "" && '*' !in h && Trim(h) == h
  }

  /** Every collected host is a usable host name. */
  lemma {:induction false} HostsAreNames(lines: seq<string>)
    ensures forall i :: 0 <= i < |HostsOf(lines)| ==> IsHostName(HostsOf(lines)[i])
  {
    if lines != [] {
      var init := lines[..|lines| - 1];
      var line := lines[|lines| - 1];
      HostsAreNames(init);
      var h := HostOfLine(line);
      var tail: seq<string> := if h.Some? then [h.value] else [];
      assert HostsOf(lines) == HostsOf(init) + tail;
      if h.Some? {
        HostOfLineIsName(line);
        assert IsHostName(h.value);
      }
      assert forall j :: 0 <= j < |tail| ==> IsHostName(tail[j]);
    }
  }

  lemma HostOfLineIsName(line: string)
    requires HostOfLine(line).Some?
    ensures HostOfLine(line).value != "" && Trim(HostOfLine(line).value) == HostOfLine(line).value
  {
    var trimmed := Trim(line);
    TrimIsSlice(line);
    HostLineHasName(trimmed);
    var rest := trimmed[5..];
    assert HostOfLine(line).value == Trim(rest);
    TrimIdempotent(rest);
    // the last character of the trimmed line is not whitespace, so the
    // text after "Host " is not blank
    assert rest[|rest| - 1] == trimmed[|trimmed| - 1];
    TrimEmptyIffBlank(rest);
  }

  /** A trimmed line cannot end in the space of its "Host " keyword. */
  lemma HostLineHasName(trimmed: string)
    requires IsHostLine(trimmed) && !IsWhiteSpace(trimmed[|trimmed| - 1])
    ensures |trimmed| > 5
  {
    var k := ToLower(trimmed[..5]);
    assert k == ['h', 'o', 's', 't', ' '];
    assert k[4] == LowerChar(trimmed[4]);
    assert IsWhiteSpace(trimmed[4]);
  }

  /** The hosts of consecutive parts of a file are collected in order. */
  lemma HostsOfAppend(a: seq<string>, b: seq<string>)
    ensures HostsOf(a + b) == HostsOf(a) + HostsOf(b)
  {
    CollectAppend(HostOfLine, a, b);
  }

  /** A line "Host h", the keyword in any case, declares `h` when `h` is
      a trimmed name without a wildcard. */
  lemma HostDeclaration(keyword: string, h: string)
    requires |keyword| == 5 && ToLower(keyword) == "host " && !IsWhiteSpace(keyword[0])
    requires h != "" && Trim(h) == h && '*' !in h
    ensures HostOfLine(keyword + h) == Some(h)
  {
    var line := keyword + h;
    TrimIsSlice(h);
    assert line[0] == keyword[0] && line[|line| - 1] == h[|h| - 1];
    TrimmedUnchanged(line);
    assert line[..5] == keyword && line[5..] == h;
    assert IsHostLine(line);
    assert "*"[0] == '*';
  }

  /** A wildcard pattern declares nothing. */
  lemma WildcardSkipped(line: string)
    requires exists i :: 0 <= i < |Trim(line)| && Trim(line)[i] == '*'
    requires IsHostLine(Trim(line))
    ensures HostOfLine(line).None?
  {
    var trimmed := Trim(line);
    var i :| 0 <= i < |trimmed| && trimmed[i] == '*';
    KeywordHasNoWildcard(trimmed, i);
    var rest := trimmed[5..];
    assert rest[i - 5] == '*';
    WildcardSurvivesTrim(rest, i - 5);
  }

  /** Trimming keeps a character that is not whitespace. */
  lemma WildcardSurvivesTrim(rest: string, j: nat)
    requires j < |rest| && rest[j] == '*'
    ensures '*' in Trim(rest)
  {
    TrimIsSlice(rest);
    var a := |rest| - |TrimStart(rest)|;
    assert !IsWhiteSpace(rest[j]);
    assert a <= j < a + |Trim(rest)|;
    assert Trim(rest)[j - a] == '*';
  }

  lemma KeywordHasNoWildcard(trimmed: string, i: nat)
    requires IsHostLine(trimmed) && i < |trimmed| && trimmed[i] == '*'
    ensures i >= 5
  {
    var k := ToLower(trimmed[..5]);
    assert k == ['h', 'o', 's', 't', ' '];
    assert forall j :: 0 <= j < 5 ==> k[j] == LowerChar(trimmed[j]);
    assert LowerChar('*') == '*';
  }

  /** `LoadSshPresets`: a placeholder when there is nothing to offer,
      otherwise "No preset selected" followed by the hosts. */
  function PresetsOf(file: SshConfigFile): (ps: seq<string>)
    ensures |ps| >= 1
    ensures file.Lines? && HostsOf(file.lines) != [] ==> ps == [NoPresetSelected] + HostsOf(file.lines)
    ensures !file.Lines? || HostsOf(file.lines) == [] ==> ps == [NoPresetsAvailable]
  {
    if file.Lines? && HostsOf(file.lines) != [] then [NoPresetSelected] + HostsOf(file.lines)
    else [NoPresetsAvailable]
  }

  // ----- Choosing a preset -----

  /** The connection state `OnPresetChanged` sets, and whether reading
      `Presets[index]` failed. */
  datatype PresetState = PresetState(isPresetMode: bool, fieldsEnabled: bool, host: string, outOfRange: bool)

  /** `OnPresetChanged`: index 0 switches preset mode off and enables the
      connection fields; any other index switches it on, disables them and
      takes the host from the list, which throws (after the two flags are
      set) when the index is outside the list. */
  function PresetChanged(presets: seq<string>, index: int, host: string): (s: PresetState)
    ensures index == 0 <==> !s.isPresetMode
    ensures s.fieldsEnabled == !s.isPresetMode
    ensures s.outOfRange <==> index != 0 && !(0 <= index < |presets|)
    ensures 0 < index < |presets| ==> s.host == presets[index]
    ensures index == 0 || s.outOfRange ==> s.host == host
  {
    if index == 0 then PresetState(false, true, host, false)
    else if 0 <= index < |presets| then PresetState(true, false, presets[index], false)
    else PresetState(true, false, host, true)
  }

  /** Choosing entry `k` of a non-empty preset list selects the k-th host
      read from the configuration. */
  lemma ChoosingAHost(file: SshConfigFile, k: nat, host: string)
    requires file.Lines? && 1 <= k <= |HostsOf(file.lines)|
    ensures PresetChanged(PresetsOf(file), k, host) == PresetState(true, false, HostsOf(file.lines)[k - 1], false)
  {
    var hs := HostsOf(file.lines);
    IndexBehindHead(NoPresetSelected, hs, k);
  }

  lemma IndexBehindHead<T>(x: T, s: seq<T>, k: nat)
    requires 1 <= k <= |s|
    ensures ([x] + s)[k] == s[k - 1]
  {
  }

  /** With no presets to offer, only the first entry can be chosen without
      an error. */
  lemma PlaceholderOnlyAtZero(file: SshConfigFile, index: int, host: string)
    requires !file.Lines? || HostsOf(file.lines) == []
    ensures PresetChanged(PresetsOf(file), index, host).outOfRange <==> index != 0
  {
  }

  // ----- Validation and the result -----

  /** The scalar fields of the dialog. */
  datatype Props = Props(
    name: string,
    host: string,
    port: string,
    user: string,
    privateKey: string,
    autoStart: bool,
    autoRestart: bool,
    notify: bool,
    maxRestarts: string,
    isPresetMode: bool)

  /** The fields a new dialog starts with. */
  function InitialProps(): (p: Props)
    ensures p.port == "22" && p.maxRestarts == "9" && p.notify && !p.isPresetMode
  {
    Props("", "", "22", "", "", false, false, true, "9", false)
  }

  predicate PortInRange(port: string) {
    ParseInt32(port).Some? && 0 < ParseInt32(port).value <= 65535
  }

  /** `ValidateInput`: a non-blank name; outside preset mode a non-blank
      host and a port in 1..65535; always a restart limit that parses to a
      number of at least 0. */
  predicate Valid(p: Props) {
    !IsBlank(p.name)
    && (p.isPresetMode || (!IsBlank(p.host) && PortInRange(p.port)))
    && ParseInt32(p.maxRestarts).Some? && ParseInt32(p.maxRestarts).value >= 0
  }

  /** The tunnel `OnOk` builds: every field copied, the forwardings in
      order, no file name, inactive. */
  function TunnelOf(p: Props, rs: seq<PortRedirection>): (t: SshTunnel)
    ensures t.name == p.name && t.host == p.host && t.port == p.port && t.login == p.user
    ensures t.privateKeyPath == p.privateKey && t.autoStart == p.autoStart && t.restart == p.autoRestart
    ensures t.notify == p.notify && t.maxRestarts == p.maxRestarts && t.preset == p.isPresetMode
    ensures t.portRedirections == rs && !t.active && t.sshPid == 0 && t.fileName.None?
  {
    SshTunnel(p.name, p.host, p.port, p.user, p.privateKey, p.autoStart, p.autoRestart, p.notify,
              p.maxRestarts, p.isPresetMode, rs, false, 0, None)
  }

  /** The fields the edit constructor copies from a tunnel. */
  function PropsOf(t: SshTunnel): Props {
    Props(t.name, t.host, t.port, t.login, t.privateKeyPath, t.autoStart, t.restart, t.notify,
          t.maxRestarts, t.preset)
  }

  /** Editing a tunnel and confirming at once gives back its configuration;
      the runtime state and the file name are not carried. */
  lemma EditThenOkKeepsConfiguration(t: SshTunnel)
    ensures TunnelOf(PropsOf(t), t.portRedirections) == Persistent(t)
  {
  }

  /** A tunnel that passed validation never crashes the helper thread on
      its restart limit. */
  lemma ValidTunnelRunsHelper(p: Props, rs: seq<PortRedirection>, m: map<string, SshTunnel>, attempts: seq<Ssh.Attempt>)
    requires Valid(p)
    ensures !Ssh.HelperRun(TunnelOf(p, rs), m, attempts).outcome.Crashed?
  {
    Ssh.HelperRunBounds(TunnelOf(p, rs), m, attempts);
  }

  /** A preset tunnel needs neither a host nor a valid port. */
  lemma PresetSkipsConnectionChecks(p: Props)
    requires p.isPresetMode && !IsBlank(p.name) && ParseInt32(p.maxRestarts) == Some(0)
    ensures Valid(p)
  {
  }

  // ----- Forwarding rows -----

  /** `PortRedirectionViewModel`: one row of the forwarding table. */
  class PortRedirectionViewModel {
    var kind: string
    var port: string
    var toHost: string
    var toPort: string

    constructor()
      ensures ToModel() == NewPortRedirection()
    {
      kind := LocalType;
      port := "";
      toHost := "";
      toPort := "";
    }

    /** The row for an existing forwarding. */
    constructor FromModel(m: PortRedirection)
      ensures ToModel() == m
    {
      kind := m.kind;
      port := m.port1;
      toHost := m.host;
      toPort := m.port2;
    }

    /** `ToModel`. */
    function ToModel(): PortRedirection
      reads this
    {
      PortRedirection(kind, port, toHost, toPort)
    }

    /** The row update of `OnEditRedirection`. */
    method Update(r: PortRedirection)
      modifies this
      ensures ToModel() == r
    {
      kind := r.kind;
      port := r.port1;
      toHost := r.host;
      toPort := r.port2;
    }
  }

  /** The forwardings the rows stand for, in order. */
  function ModelsOf(rows: seq<PortRedirectionViewModel>): (rs: seq<PortRedirection>)
    reads rows
    ensures |rs| == |rows|
    ensures forall i :: 0 <= i < |rows| ==> rs[i] == rows[i].ToModel()
  {
    if rows == [] then [] else ModelsOf(rows[..|rows| - 1]) + [rows[|rows| - 1].ToModel()]
  }

  /** `ObservableCollection.Remove`: drops the first occurrence of the
      item, if there is one. */
  function RemoveFirst<T(==)>(s: seq<T>, x: T): (r: seq<T>)
    ensures x !in s ==> r == s
    ensures x in s ==> |r| == |s| - 1
  {
    if s == [] then []
    else if s[0] == x then s[1..]
    else [s[0]] + RemoveFirst(s[1..], x)
  }

  /** Removing drops exactly the first occurrence and keeps the order of
      the rest. */
  lemma {:induction false} RemoveFirstAt<T>(s: seq<T>, x: T, i: nat)
    requires i < |s| && s[i] == x && x !in s[..i]
    ensures RemoveFirst(s, x) == s[..i] + s[i + 1..]
  {
    if i > 0 {
      assert s[0] in s[..i];
      assert s[1..][..i - 1] == s[1..i];
      RemoveFirstAt(s[1..], x, i - 1);
      assert s[..i] == [s[0]] + s[1..i];
    }
  }

  lemma ModelsOfPrefix(rows: seq<PortRedirectionViewModel>, i: nat)
    requires i < |rows|
    ensures ModelsOf(rows[..i + 1]) == ModelsOf(rows[..i]) + [rows[i].ToModel()]
  {
    assert rows[..i + 1][..i] == rows[..i];
  }

  // ----- The dialog -----

  class PropertiesDialogViewModel {
    var props: Props
    var presets: seq<string>
    var selectedPresetIndex: int
    var isConnectionFieldsEnabled: bool
    var portRedirections: seq<PortRedirectionViewModel>
    var selectedRedirection: Option<PortRedirectionViewModel>
    var dialogResult: bool
    var result: Option<SshTunnel>

    /** The constructor for a new tunnel. */
    constructor(file: SshConfigFile)
      ensures props == InitialProps() && presets == PresetsOf(file)
      ensures selectedPresetIndex == 0 && isConnectionFieldsEnabled
      ensures portRedirections == [] && selectedRedirection.None?
      ensures !dialogResult && result.None?
    {
      var ps := ReadPresets(file);
      props := InitialProps();
      presets := ps;
      selectedPresetIndex := 0;
      isConnectionFieldsEnabled := true;
      portRedirections := [];
      selectedRedirection := None;
      dialogResult := false;
      result := None;
    }

    /** The constructor for editing a tunnel: its fields, one fresh row per
        forwarding in order, and the connection fields enabled exactly when
        the tunnel is not a preset. The preset index stays at 0. */
    constructor Edit(existing: SshTunnel, file: SshConfigFile)
      ensures props == PropsOf(existing) && presets == PresetsOf(file)
      ensures selectedPresetIndex == 0 && isConnectionFieldsEnabled == !existing.preset
      ensures ModelsOf(portRedirections) == existing.portRedirections
      ensures forall i :: 0 <= i < |portRedirections| ==> fresh(portRedirections[i])
      ensures selectedRedirection.None? && !dialogResult && result.None?
    {
      var ps := ReadPresets(file);
      props := PropsOf(existing);
      presets := ps;
      selectedPresetIndex := 0;
      isConnectionFieldsEnabled := !existing.preset;
      selectedRedirection := None;
      dialogResult := false;
      result := None;
      var rows := MakeRows(existing.portRedirections);
      portRedirections := rows;
    }

    /** `LoadSshPresets`. */
    method LoadSshPresets(file: SshConfigFile)
      modifies this
      ensures presets == PresetsOf(file)
      ensures props == old(props) && selectedPresetIndex == old(selectedPresetIndex)
      ensures isConnectionFieldsEnabled == old(isConnectionFieldsEnabled)
      ensures portRedirections == old(portRedirections) && selectedRedirection == old(selectedRedirection)
      ensures dialogResult == old(dialogResult) && result == old(result)
    {
      presets := ReadPresets(file);
    }

    /** The `SelectedPresetIndex` setter: records the index, then
        `OnPresetChanged`; `outOfRange` is the exception the list index
        throws. */
    method SetSelectedPresetIndex(index: int) returns (outOfRange: bool)
      modifies this
      ensures selectedPresetIndex == index
      ensures var s := PresetChanged(presets, index, old(props.host));
        props == old(props).(isPresetMode := s.isPresetMode, host := s.host)
        && isConnectionFieldsEnabled == s.fieldsEnabled && outOfRange == s.outOfRange
      ensures presets == old(presets) && portRedirections == old(portRedirections)
      ensures selectedRedirection == old(selectedRedirection)
      ensures dialogResult == old(dialogResult) && result == old(result)
    {
      selectedPresetIndex := index;
      if index == 0 {
        props := props.(isPresetMode := false);
        isConnectionFieldsEnabled := true;
        return false;
      }
      props := props.(isPresetMode := true);
      isConnectionFieldsEnabled := false;
      if !(0 <= index < |presets|) {
        return true;
      }
      props := props.(host := presets[index]);
      return false;
    }

    /** `OnAddRedirection`, given what the forwarding dialog returned:
        a new row at the end, or nothing. */
    method OnAddRedirection(chosen: Option<PortRedirection>)
      modifies this
      ensures chosen.None? ==> portRedirections == old(portRedirections)
      ensures chosen.Some? ==>
        |portRedirections| == |old(portRedirections)| + 1
        && portRedirections[..|old(portRedirections)|] == old(portRedirections)
        && fresh(portRedirections[|old(portRedirections)|])
        && portRedirections[|old(portRedirections)|].ToModel() == chosen.value
      ensures props == old(props) && presets == old(presets) && selectedRedirection == old(selectedRedirection)
      ensures selectedPresetIndex == old(selectedPresetIndex) && isConnectionFieldsEnabled == old(isConnectionFieldsEnabled)
      ensures dialogResult == old(dialogResult) && result == old(result)
    {
      if chosen.Some? {
        var row := new PortRedirectionViewModel.FromModel(chosen.value);
        portRedirections := portRedirections + [row];
      }
    }

    /** `OnEditRedirection`, given what the forwarding dialog returned: the
        selected row takes over the edited forwarding; no other row and no
        field of the dialog changes. */
    method OnEditRedirection(chosen: Option<PortRedirection>)
      modifies this, if selectedRedirection.Some? then {selectedRedirection.value} else {}
      ensures selectedRedirection == old(selectedRedirection) && portRedirections == old(portRedirections)
      ensures old(selectedRedirection).Some? && chosen.Some? ==> selectedRedirection.value.ToModel() == chosen.value
      ensures old(selectedRedirection).None? || chosen.None? ==>
        selectedRedirection.None? || selectedRedirection.value.ToModel() == old(selectedRedirection.value.ToModel())
      ensures props == old(props) && presets == old(presets)
      ensures selectedPresetIndex == old(selectedPresetIndex) && isConnectionFieldsEnabled == old(isConnectionFieldsEnabled)
      ensures dialogResult == old(dialogResult) && result == old(result)
    {
      if selectedRedirection.Some? && chosen.Some? {
        selectedRedirection.value.Update(chosen.value);
      }
    }

    /** `OnDeleteRedirection`: the selected row leaves the list; the
        selection itself is kept. */
    method OnDeleteRedirection()
      modifies this
      ensures selectedRedirection.None? ==> portRedirections == old(portRedirections)
      ensures selectedRedirection.Some? ==> portRedirections == RemoveFirst(old(portRedirections), selectedRedirection.value)
      ensures selectedRedirection == old(selectedRedirection)
      ensures props == old(props) && presets == old(presets)
      ensures selectedPresetIndex == old(selectedPresetIndex) && isConnectionFieldsEnabled == old(isConnectionFieldsEnabled)
      ensures dialogResult == old(dialogResult) && result == old(result)
    {
      if selectedRedirection.Some? {
        portRedirections := RemoveFirst(portRedirections, selectedRedirection.value);
      }
    }

    /** `OnOk`: an invalid dialog changes nothing; a valid one yields the
        tunnel with its forwardings in row order and closes with true. */
    method OnOk()
      modifies this
      ensures !Valid(old(props)) ==> dialogResult == old(dialogResult) && result == old(result)
      ensures Valid(old(props)) ==> dialogResult && result == Some(TunnelOf(old(props), old(ModelsOf(portRedirections))))
      ensures props == old(props) && portRedirections == old(portRedirections)
      ensures presets == old(presets) && selectedRedirection == old(selectedRedirection)
      ensures selectedPresetIndex == old(selectedPresetIndex) && isConnectionFieldsEnabled == old(isConnectionFieldsEnabled)
    {
      var ok := ValidateInput();
      if !ok {
        return;
      }
      var rs := CollectModels(portRedirections);
      Close(true, Some(TunnelOf(props, rs)));
    }

    /** Sets `Result` and `DialogResult`, the two fields that closing
        the dialog reports to its window. */
    method Close(closedWith: bool, r: Option<SshTunnel>)
      modifies this
      ensures dialogResult == closedWith && result == r
      ensures props == old(props) && portRedirections == old(portRedirections)
      ensures presets == old(presets) && selectedRedirection == old(selectedRedirection)
      ensures selectedPresetIndex == old(selectedPresetIndex) && isConnectionFieldsEnabled == old(isConnectionFieldsEnabled)
    {
      result := r;
      dialogResult := closedWith;
    }

    /** `OnCancel`. */
    method OnCancel()
      modifies this
      ensures !dialogResult && result.None?
      ensures props == old(props) && portRedirections == old(portRedirections)
      ensures presets == old(presets) && selectedRedirection == old(selectedRedirection)
      ensures selectedPresetIndex == old(selectedPresetIndex) && isConnectionFieldsEnabled == old(isConnectionFieldsEnabled)
    {
      Close(false, None);
    }

    /** `ValidateInput`, as its chain of early returns. */
    method ValidateInput() returns (ok: bool)
      ensures ok == Valid(props)
    {
      if IsBlank(props.name) {
        return false;
      }
      if !props.isPresetMode {
        if IsBlank(props.host) {
          return false;
        }
        var port := ParseInt32(props.port);
        if port.None? || port.value <= 0 || port.value > 65535 {
          return false;
        }
      }
      var limit := ParseInt32(props.maxRestarts);
      if limit.None? || limit.value < 0 {
        return false;
      }
      return true;
    }
  }

  /** The loop of `OnOk` that turns the rows into forwardings. */
  method CollectModels(rows: seq<PortRedirectionViewModel>) returns (rs: seq<PortRedirection>)
    ensures rs == ModelsOf(rows)
  {
    rs := [];
    var i := 0;
    while i < |rows|
      invariant 0 <= i <= |rows|
      invariant rs == ModelsOf(rows[..i])
    {
      ModelsOfPrefix(rows, i);
      rs := rs + [rows[i].ToModel()];
      i := i + 1;
    }
    assert rows[..|rows|] == rows;
  }

  /** The loop of the edit constructor: one fresh row per forwarding. */
  method MakeRows(rs: seq<PortRedirection>) returns (rows: seq<PortRedirectionViewModel>)
    ensures ModelsOf(rows) == rs
    ensures forall i :: 0 <= i < |rows| ==> fresh(rows[i])
  {
    rows := [];
    var i := 0;
    while i < |rs|
      invariant 0 <= i <= |rs| && |rows| == i
      invariant forall j :: 0 <= j < i ==> rows[j].ToModel() == rs[j]
      invariant forall j :: 0 <= j < i ==> fresh(rows[j])
    {
      var row := new PortRedirectionViewModel.FromModel(rs[i]);
      rows := rows + [row];
      i := i + 1;
    }
  }

  lemma HostsOfPrefix(lines: seq<string>, i: nat)
    requires i < |lines|
    ensures var h := HostOfLine(lines[i]);
      HostsOf(lines[..i + 1]) == HostsOf(lines[..i]) + (if h.Some? then [h.value] else [])
  {
    assert lines[..i + 1][..i] == lines[..i];
  }

  /** The body of `LoadSshPresets`: the placeholder when the file is
      missing, unreadable or declares no host. */
  method ReadPresets(file: SshConfigFile) returns (presets: seq<string>)
    ensures presets == PresetsOf(file)
  {
    if !file.Lines? {
      return [NoPresetsAvailable];
    }
    var hosts := ParseSshConfig(file.lines);
    if |hosts| == 0 {
      return [NoPresetsAvailable];
    }
    presets := [NoPresetSelected] + hosts;
  }

  /** `ParseSshConfig`, as its loop over the lines. */
  method ParseSshConfig(lines: seq<string>) returns (hosts: seq<string>)
    ensures hosts == HostsOf(lines)
  {
    hosts := [];
    var i := 0;
    while i < |lines|
      invariant 0 <= i <= |lines|
      invariant hosts == HostsOf(lines[..i])
    {
      HostsOfPrefix(lines, i);
      var trimmed := Trim(lines[i]);
      if IsHostLine(trimmed) {
        var hostName := Trim(trimmed[5..]);
        if hostName != "*" && '*' !in hostName {
          hosts := hosts + [hostName];
        }
      }
      i := i + 1;
    }
    assert lines[..|lines|] == lines;
  }
}
