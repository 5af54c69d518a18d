/** The unprivileged tray: a cached belief about the current mode, changed
    only after a privileged `pkexec fanctl <token>` run reports success. */
module Tray {
  import opened Backend

  /** How the `pkexec` child ended: it could not be spawned, it exited with
      a status code, or a signal killed it. */
  datatype ChildStatus = SpawnFailed | Exited(code: int) | Signalled

  /** `ExitStatus::success()`. */
  predicate Succeeded(status: ChildStatus) {
    status.Exited? && status.code == 0
  }

  /** The belief at startup: G-Mode when the bit reads on, else Balanced. */
  function InitialMode(gmodeOn: bool): (m: FanMode)
    ensures m == GMode <==> gmodeOn
    ensures m != Quiet && m != Performance
  {
    if gmodeOn then GMode else Balanced
  }

  /** The command line of the privileged child for `mode`. */
  function PkexecCommand(mode: FanMode): seq<string> {
    ["pkexec", "fanctl", AsStr(mode)]
  }

  /** One mode change the tray asked for, and how its child ended. */
  datatype ModeRequest = ModeRequest(mode: FanMode, status: ChildStatus)

  /** The belief after `requests`, starting from `initial`: each confirmed
      request overwrites it, every other request leaves it as it was. */
  function Belief(initial: FanMode, requests: seq<ModeRequest>): FanMode
  {
    if requests == [] then initial
    else
      var last := requests[|requests| - 1];
      var before := Belief(initial, requests[..|requests| - 1]);
      if Succeeded(last.status) then last.mode else before
  }

  /** The belief is the mode of the last confirmed request, or the initial
      belief when no request was confirmed: a failed or unspawned child
      never moves it. */
  lemma {:induction false} BeliefIsLastConfirmed(initial: FanMode, requests: seq<ModeRequest>)
    ensures (forall i :: 0 <= i < |requests| ==> !Succeeded(requests[i].status)) ==>
      Belief(initial, requests) == initial
    ensures forall i :: 0 <= i < |requests| ==>
      (Succeeded(requests[i].status) && forall j :: i < j < |requests| ==> !Succeeded(requests[j].status)) ==>
      Belief(initial, requests) == requests[i].mode
  {
    if requests != [] {
      var init := requests[..|requests| - 1];
      BeliefIsLastConfirmed(initial, init);
      assert forall i :: 0 <= i < |init| ==> init[i] == requests[i];
    }
  }

  /** The tray icon of a mode: "fan-" followed by the mode's token. */
  function IconName(mode: FanMode): (r: string)
    ensures r == "fan-" + AsStr(mode)
  {
    match mode
    case Quiet => "fan-quiet"
    case Balanced => "fan-balanced"
    case Performance => "fan-performance"
    case GMode => "fan-gmode"
  }

  lemma IconNamesDistinct(a: FanMode, b: FanMode)
    ensures IconName(a) == IconName(b) ==> a == b
  {
    if IconName(a) == IconName(b) {
      assert AsStr(a) == IconName(a)[4..];
      AsStrInjective(a, b);
    }
  }

  const CHECKED_ICON := "emblem-default"

  /** What activating a menu item does. */
  datatype Action = RequestMode(mode: FanMode) | QuitTray

  datatype MenuItem = Standard(caption: string, iconName: string, action: Action) | Separator

  /** The entry for `mode`, checked when it is the believed mode. */
  function ModeItem(mode: FanMode, current: FanMode): MenuItem {
    Standard("● " + DisplayName(mode), if mode == current then CHECKED_ICON else "", RequestMode(mode))
  }

  /** Where the item of `mode` sits in the menu. */
  function MenuIndex(mode: FanMode): nat {
    match mode
    case Quiet => 0
    case Balanced => 1
    case Performance => 2
    case GMode => 4
  }

  /** The tray menu: the four modes (G-Mode set apart by a separator), then
      Quit. Each mode has its own item, which requests that mode when
      activated, and exactly the item of the believed mode carries the check
      icon. */
  function Menu(current: FanMode): (items: seq<MenuItem>)
    ensures |items| == 7 && items[3] == Separator && items[5] == Separator
    ensures items[6] == Standard("Quit", "application-exit", QuitTray)
    ensures forall m ::
      && MenuIndex(m) < |items| && items[MenuIndex(m)].Standard?
      && items[MenuIndex(m)].action == RequestMode(m)
      && items[MenuIndex(m)].caption == "● " + DisplayName(m)
    ensures forall i :: 0 <= i < |items| ==>
      (items[i].Standard? && items[i].iconName == CHECKED_ICON <==> i == MenuIndex(current))
  {
    [ModeItem(Quiet, current), ModeItem(Balanced, current), ModeItem(Performance, current),
     Separator,
     ModeItem(GMode, current),
     Separator,
     Standard("Quit", "application-exit", QuitTray)]
  }

  class FanTray {
    var currentMode: FanMode
    ghost var initial: FanMode
    ghost var requests: seq<ModeRequest>

    ghost predicate Valid()
      reads this
    {
      currentMode == Belief(initial, requests)
    }

    /** `FanTray::new`: seeds the belief from the G-Mode query. */
    constructor (sys: Platform)
      modifies sys`trace
      ensures Valid() && requests == []
      ensures currentMode == InitialMode(GModeQuery(sys.hw))
      ensures sys.trace == old(sys.trace) + QueryOps(sys.hw)
    {
      var on := IsGModeOn(sys);
      currentMode := InitialMode(on);
      initial := currentMode;
      requests := [];
    }

    /** `set_mode`: spawns `pkexec fanctl <token>`; the child ended with
        `status`. The belief moves to `mode` only on success. */
    method SetMode(mode: FanMode, status: ChildStatus) returns (argv: seq<string>)
      requires Valid()
      modifies this
      ensures Valid() && initial == old(initial)
      ensures requests == old(requests) + [ModeRequest(mode, status)]
      ensures argv == PkexecCommand(mode)
      ensures Succeeded(status) ==> currentMode == mode
      ensures !Succeeded(status) ==> currentMode == old(currentMode)
    {
      argv := PkexecCommand(mode);
      requests := requests + [ModeRequest(mode, status)];
      match status {
        case Exited(code) =>
          if code == 0 {
            currentMode := mode;
          }
        case _ =>
      }
      assert requests[..|requests| - 1] == old(requests);
    }

    /** `get_icon_name`: the icon of the believed mode. */
    function GetIconName(): (r: string)
      reads this
      ensures r == "fan-" + AsStr(currentMode)
    {
      IconName(currentMode)
    }

    /** `menu`, built from the current belief: the believed mode's item is
        the only checked one, and it requests that mode again. */
    function CurrentMenu(): (items: seq<MenuItem>)
      reads this
      ensures |items| == 7
      ensures items[MenuIndex(currentMode)] ==
        Standard("● " + DisplayName(currentMode), CHECKED_ICON, RequestMode(currentMode))
      ensures forall i :: 0 <= i < |items| && i != MenuIndex(currentMode) ==>
        !(items[i].Standard? && items[i].iconName == CHECKED_ICON)
    {
      Menu(currentMode)
    }

    /** Activating a mode item: the request goes out for that item's mode. */
    method Activate(item: MenuItem, status: ChildStatus) returns (argv: seq<string>)
      requires Valid()
      requires item.Standard? && item.action.RequestMode?
      modifies this
      ensures Valid() && initial == old(initial)
      ensures requests == old(requests) + [ModeRequest(item.action.mode, status)]
      ensures argv == PkexecCommand(item.action.mode)
    {
      argv := SetMode(item.action.mode, status);
    }
  }
}
