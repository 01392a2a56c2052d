/** The dialog that edits one port forwarding: its view model, which
    switches the fields with the forwarding type and validates them, and
    the window's own OK handler, which checks less. */
module TunnelDialog {
  import opened Wrappers
  import opened Text
  import opened Models

  /** The editable state of the dialog. */
  datatype Form = Form(
    selectedType: string,
    bindPort: string,
    toHost: string,
    toPort: string,
    toHostEnabled: bool,
    toPortEnabled: bool)

  /** The field initialisers. */
  function InitialForm(): Form {
    Form(LocalType, "127.0.0.1:", "", "", true, true)
  }

  function ClearNotApplicable(s: string): string {
    if s == NotApplicable then "" else s
  }

  /** `OnTypeChanged(setDefaults)`, by the lower-cased type: a dynamic
      forwarding disables both target fields (and, with defaults, fills
      them with "n/a"); local and remote enable them, clear an "n/a" and
      (with defaults) reset the bind value to "127.0.0.1:" or "". Any
      other type changes nothing, the switch having no default case. */
  function TypeChanged(f: Form, setDefaults: bool): Form {
    var kind := ToLower(f.selectedType);
    if kind == DynamicType then
      var g := if setDefaults then f.(toHost := NotApplicable, toPort := NotApplicable) else f;
      g.(toHostEnabled := false, toPortEnabled := false)
    else if kind == LocalType || kind == RemoteType then
      var g := f.(toHostEnabled := true, toPortEnabled := true,
                  toHost := ClearNotApplicable(f.toHost), toPort := ClearNotApplicable(f.toPort));
      if setDefaults then g.(bindPort := if kind == LocalType then "127.0.0.1:" else "") else g
    else f
  }

  /** What a type change does, case by case: the type itself is kept, and
      the targets are enabled exactly for local and remote. */
  lemma TypeChangedCases(f: Form, setDefaults: bool)
    ensures var g := TypeChanged(f, setDefaults); var kind := ToLower(f.selectedType);
      g.selectedType == f.selectedType
      && (kind == DynamicType ==>
            !g.toHostEnabled && !g.toPortEnabled && g.bindPort == f.bindPort
            && (setDefaults ==> g.toHost == NotApplicable && g.toPort == NotApplicable)
            && (!setDefaults ==> g.toHost == f.toHost && g.toPort == f.toPort))
      && (kind == LocalType || kind == RemoteType ==>
            g.toHostEnabled && g.toPortEnabled
            && g.toHost != NotApplicable && g.toPort != NotApplicable
            && (f.toHost != NotApplicable ==> g.toHost == f.toHost)
            && (f.toPort != NotApplicable ==> g.toPort == f.toPort)
            && (setDefaults && kind == LocalType ==> g.bindPort == "127.0.0.1:")
            && (setDefaults && kind == RemoteType ==> g.bindPort == "")
            && (!setDefaults ==> g.bindPort == f.bindPort))
      && (kind != DynamicType && kind != LocalType && kind != RemoteType ==> g == f)
  {
  }

  /** Applying the same type change twice is applying it once. */
  lemma TypeChangedIdempotent(f: Form, setDefaults: bool)
    ensures TypeChanged(TypeChanged(f, setDefaults), setDefaults) == TypeChanged(f, setDefaults)
  {
  }

  /** A fresh dialog is already in the state its constructor's type change
      leaves: a local forwarding bound to "127.0.0.1:", both targets empty
      and enabled. */
  lemma FreshFormIsSettled()
    ensures TypeChanged(InitialForm(), true) == InitialForm()
  {
    LowerCaseUnchanged(LocalType);
  }

  /** `ValidateInput`: a non-blank bind value; for a type other than
      dynamic also a non-blank target host and a target port that parses
      to 1..65535. */
  predicate Valid(f: Form) {
    !IsBlank(f.bindPort)
    && (ToLower(f.selectedType) == DynamicType
        || (!IsBlank(f.toHost) && !IsBlank(f.toPort)
            && ParseInt32(f.toPort).Some? && 0 < ParseInt32(f.toPort).value <= 65535))
  }

  /** The blank-port test in `ValidateInput` is implied by the numeric test
      after it. */
  lemma BlankPortTestRedundant(f: Form)
    ensures Valid(f) <==>
      !IsBlank(f.bindPort)
      && (ToLower(f.selectedType) == DynamicType
          || (!IsBlank(f.toHost) && ParseInt32(f.toPort).Some? && 0 < ParseInt32(f.toPort).value <= 65535))
  {
    if ParseInt32(f.toPort).Some? {
      ParsedIsNotBlank(f.toPort);
    }
  }

  /** The forwarding a confirmed dialog yields. */
  function ResultOf(f: Form): (r: PortRedirection)
    ensures r.kind == ToLower(f.selectedType)
    ensures r.port1 == f.bindPort && r.host == f.toHost && r.port2 == f.toPort
  {
    PortRedirection(ToLower(f.selectedType), f.bindPort, f.toHost, f.toPort)
  }

  /** The form the edit constructor loads: the base constructor's state
      with the forwarding's lower-cased type and its three values. */
  function LoadedForm(existing: PortRedirection): Form {
    TypeChanged(InitialForm(), true).(selectedType := ToLower(existing.kind),
      bindPort := existing.port1, toHost := existing.host, toPort := existing.port2)
  }

  /** Editing shows the loaded values (no defaults are applied), except
      that an "n/a" target of a local or remote forwarding is cleared. */
  lemma EditShowsLoadedValues(existing: PortRedirection)
    ensures var g := TypeChanged(LoadedForm(existing), false); var kind := ToLower(existing.kind);
      g.selectedType == kind && g.bindPort == existing.port1
      && (kind == LocalType || kind == RemoteType ==>
            g.toHost == ClearNotApplicable(existing.host) && g.toPort == ClearNotApplicable(existing.port2))
      && (kind != LocalType && kind != RemoteType ==> g.toHost == existing.host && g.toPort == existing.port2)
  {
    FreshFormIsSettled();
    ToLowerIdempotent(existing.kind);
  }

  /** Opening a well-formed forwarding for editing and confirming it at
      once gives the same forwarding back. */
  lemma EditThenOkRoundTrip(existing: PortRedirection)
    requires ToLower(existing.kind) == existing.kind
    requires existing.host != NotApplicable && existing.port2 != NotApplicable
    ensures ResultOf(TypeChanged(LoadedForm(existing), false)) == existing
  {
    EditShowsLoadedValues(existing);
    ToLowerIdempotent(existing.kind);
  }

  class TunnelDialogViewModel {
    var selectedType: string
    var bindPort: string
    var toHost: string
    var toPort: string
    var isToHostEnabled: bool
    var isToPortEnabled: bool
    var dialogResult: bool
    var result: Option<PortRedirection>

    function Fields(): Form
      reads this
    {
      Form(selectedType, bindPort, toHost, toPort, isToHostEnabled, isToPortEnabled)
    }

    /** The constructor for a new forwarding. */
    constructor()
      ensures Fields() == InitialForm()
      ensures !dialogResult && result.None?
    {
      selectedType := LocalType;
      bindPort := "127.0.0.1:";
      toHost := "";
      toPort := "";
      isToHostEnabled := true;
      isToPortEnabled := true;
      dialogResult := false;
      result := None;
      new;
      OnTypeChanged(true);
      FreshFormIsSettled();
    }

    /** The constructor for editing an existing forwarding. */
    constructor Edit(existing: PortRedirection)
      ensures Fields() == TypeChanged(LoadedForm(existing), false)
      ensures !dialogResult && result.None?
    {
      selectedType := LocalType;
      bindPort := "127.0.0.1:";
      toHost := "";
      toPort := "";
      isToHostEnabled := true;
      isToPortEnabled := true;
      dialogResult := false;
      result := None;
      new;
      OnTypeChanged(true);
      selectedType := ToLower(existing.kind);
      bindPort := existing.port1;
      toHost := existing.host;
      toPort := existing.port2;
      OnTypeChanged(false);
    }

    /** The `SelectedType` setter: the new type, then a type change with
        defaults. */
    method SetSelectedType(value: string)
      modifies this
      ensures Fields() == TypeChanged(old(Fields()).(selectedType := value), true)
      ensures dialogResult == old(dialogResult) && result == old(result)
    {
      selectedType := value;
      OnTypeChanged(true);
    }

    /** `OnTypeChanged`. */
    method OnTypeChanged(setDefaults: bool)
      modifies this
      ensures Fields() == TypeChanged(old(Fields()), setDefaults)
      ensures dialogResult == old(dialogResult) && result == old(result)
    {
      var kind := ToLower(selectedType);
      if kind == DynamicType {
        if setDefaults {
          toHost := NotApplicable;
          toPort := NotApplicable;
        }
        isToHostEnabled := false;
        isToPortEnabled := false;
      } else if kind == LocalType || kind == RemoteType {
        isToHostEnabled := true;
        isToPortEnabled := true;
        if toHost == NotApplicable {
          toHost := "";
        }
        if toPort == NotApplicable {
          toPort := "";
        }
        if setDefaults {
          bindPort := if kind == LocalType then "127.0.0.1:" else "";
        }
      }
    }

    /** `OnOk`: an invalid form changes nothing; a valid one yields its
        forwarding and closes the dialog with true. */
    method OnOk()
      modifies this
      ensures Fields() == old(Fields())
      ensures !Valid(old(Fields())) ==> dialogResult == old(dialogResult) && result == old(result)
      ensures Valid(old(Fields())) ==> dialogResult && result == Some(ResultOf(old(Fields())))
    {
      var ok := ValidateInput();
      if !ok {
        return;
      }
      result := Some(PortRedirection(ToLower(selectedType), bindPort, toHost, toPort));
      dialogResult := true;
    }

    /** `OnCancel`. */
    method OnCancel()
      modifies this
      ensures Fields() == old(Fields())
      ensures !dialogResult && result.None?
    {
      dialogResult := false;
      result := None;
    }

    /** `ValidateInput`, as its chain of early returns. */
    method ValidateInput() returns (ok: bool)
      ensures ok == Valid(Fields())
    {
      if IsBlank(bindPort) {
        return false;
      }
      if ToLower(selectedType) == DynamicType {
        return true;
      }
      if IsBlank(toHost) {
        return false;
      }
      if IsBlank(toPort) {
        return false;
      }
      var port := ParseInt32(toPort);
      if port.None? || port.value <= 0 || port.value > 65535 {
        return false;
      }
      return true;
    }
  }

  // ----- The window's own handlers -----

  /** Why the window refuses to close. */
  datatype Rejection = PortEmpty | HostEmpty | Port2Empty

  /** `BtnOk_Click`: a blank bind value is refused first; unless the type
      is dynamic, a blank target host and then a blank target port are
      refused; anything else closes the window with the forwarding. There
      is no numeric check of the target port here. */
  function BtnOkClick(f: Form): (r: Result<PortRedirection, Rejection>)
    ensures r == Err(PortEmpty) <==> IsBlank(f.bindPort)
    ensures r == Err(HostEmpty) <==> !IsBlank(f.bindPort) && ToLower(f.selectedType) != DynamicType && IsBlank(f.toHost)
    ensures r == Err(Port2Empty) <==>
      !IsBlank(f.bindPort) && ToLower(f.selectedType) != DynamicType && !IsBlank(f.toHost) && IsBlank(f.toPort)
    ensures r.Ok? ==> r.value == ResultOf(f)
  {
    var kind := ToLower(f.selectedType);
    if IsBlank(f.bindPort) then Err(PortEmpty)
    else if kind != DynamicType && IsBlank(f.toHost) then Err(HostEmpty)
    else if kind != DynamicType && IsBlank(f.toPort) then Err(Port2Empty)
    else Ok(PortRedirection(kind, f.bindPort, f.toHost, f.toPort))
  }

  /** What closing the window hands back: the forwarding after OK, nothing
      after Cancel; a refused OK keeps the window open. */
  datatype Button = OkButton | CancelButton

  function CloseValue(b: Button, f: Form): (r: Result<Option<PortRedirection>, Rejection>)
    ensures b == CancelButton ==> r == Ok(None)
    ensures b == OkButton ==> (r.Ok? <==> BtnOkClick(f).Ok?)
    ensures b == OkButton && r.Ok? ==> r.value == Some(ResultOf(f))
  {
    match b
    case CancelButton => Ok(None)
    case OkButton =>
      match BtnOkClick(f)
      case Ok(p) => Ok(Some(p))
      case Err(e) => Err(e)
  }

  /** Everything the view model accepts the window accepts, with the same
      forwarding. */
  lemma WindowAcceptsValidForm(f: Form)
    requires Valid(f)
    ensures BtnOkClick(f) == Ok(ResultOf(f))
  {
  }

  /** The window accepts a target port that is not a number, which the
      view model's validation refuses. */
  lemma WindowAcceptsNonNumericPort(f: Form)
    requires f.selectedType == LocalType && f.bindPort == "8080" && f.toHost == "db" && f.toPort == "abc"
    ensures BtnOkClick(f).Ok? && !Valid(f)
  {
    var p := f.toPort;
    assert p[0] == 'a' && p[2] == 'c';
    assert !IsWhiteSpace(p[0]) && !IsNumberWhite(p[0]) && !IsNumberWhite(p[2]);
    assert StripNumberWhiteStart(p) == p;
    assert StripNumberWhiteEnd(p) == p;
    assert !AllDigits(p);
    assert ParseInt32(p).None?;
    assert !IsWhiteSpace(f.bindPort[0]) && !IsWhiteSpace(f.toHost[0]);
    LowerCaseUnchanged(LocalType);
  }
}
