/** The connection-status state machine the COR hub screen and the MPPT screen share: the
    status values, what a press on a device card dispatches to, and where each transport
    outcome leaves the status. Both screens implement the same rules; their classes are
    proved against the functions here. */
module ScreenConnection {

  /** `connectionStatus`. 'Searching...' belongs to the type but no code path sets it. */
  datatype ConnectionStatus = Connect | Searching | Connecting | Disconnecting | Connected

  /** How a connection attempt ends:
      - `AdapterOff`: `BleManager.checkState()` did not report 'on';
      - `ConnectError`: `BleManager.connect` threw;
      - `ServicesError`: the link came up but `retrieveServices` threw;
      - `ConnectOk`: both succeeded.
      An error carries whether its message is exactly "Bluetooth is off". */
  datatype ConnectOutcome = AdapterOff | ConnectError(bluetoothOffMessage: bool) | ServicesError(bluetoothOffMessage: bool) | ConnectOk

  datatype PressAction = ConnectAction | DisconnectAction | NoAction

  /** `handleDevicePress`: which handler a press on a device card runs. */
  function PressDispatch(s: ConnectionStatus): (a: PressAction)
    ensures a == ConnectAction <==> s == Connect
    ensures a == DisconnectAction <==> s == Connected
  {
    match s
    case Connect => ConnectAction
    case Connected => DisconnectAction
    case _ => NoAction
  }

  /** The status `connectDevice` leaves, starting from `s`. */
  function StatusAfterConnect(s: ConnectionStatus, o: ConnectOutcome): (r: ConnectionStatus)
    ensures o.AdapterOff? ==> r == s
    ensures r == Connected <==> o.ConnectOk? || (o.AdapterOff? && s == Connected)
  {
    match o
    case AdapterOff => s
    case ConnectError(m) => if m then Connecting else Connect
    case ServicesError(m) => if m then Connecting else Connect
    case ConnectOk => Connected
  }

  /** The status `disconnectDevice` leaves: back to 'Connect', or stuck in 'Disconnecting'
      when the transport throws. */
  function StatusAfterDisconnect(ok: bool): (r: ConnectionStatus)
    ensures r == Connect <==> ok
    ensures r == Disconnecting <==> !ok
  {
    if ok then Connect else Disconnecting
  }

  /** One press, given how the connect or disconnect it triggers would end. */
  function StatusAfterPress(s: ConnectionStatus, co: ConnectOutcome, disconnectOk: bool): ConnectionStatus
  {
    match PressDispatch(s)
    case ConnectAction => StatusAfterConnect(s, co)
    case DisconnectAction => StatusAfterDisconnect(disconnectOk)
    case NoAction => s
  }

  /** A press from 'Connect' never starts a disconnect. */
  lemma PressFromConnect(co: ConnectOutcome, disconnectOk: bool)
    ensures StatusAfterPress(Connect, co, disconnectOk) in {Connect, Connecting, Connected}
    ensures StatusAfterPress(Connect, co, disconnectOk) == Connected <==> co == ConnectOk
  {
  }

  /** A press from 'Connected' always disconnects. */
  lemma PressFromConnected(co: ConnectOutcome, disconnectOk: bool)
    ensures StatusAfterPress(Connected, co, disconnectOk) == if disconnectOk then Connect else Disconnecting
  {
  }

  /** The status after a series of presses. */
  function StatusAfterPresses(s: ConnectionStatus, cos: seq<ConnectOutcome>, oks: seq<bool>): ConnectionStatus
    requires |cos| == |oks|
    decreases |cos|
  {
    if cos == [] then s
    else StatusAfterPresses(StatusAfterPress(s, cos[0], oks[0]), cos[1..], oks[1..])
  }

  /** 'Connecting' (left by a "Bluetooth is off" error) and 'Disconnecting' (left by a failed
      disconnect) are dead ends for presses: no series of presses leaves them. */
  lemma {:induction false} TransitionalStatusesAreSticky(s: ConnectionStatus, cos: seq<ConnectOutcome>, oks: seq<bool>)
    requires |cos| == |oks|
    requires s in {Searching, Connecting, Disconnecting}
    ensures StatusAfterPresses(s, cos, oks) == s
  {
    if cos != [] {
      TransitionalStatusesAreSticky(s, cos[1..], oks[1..]);
    }
  }

  /** The flip every switch of both screens applies: 0 becomes 1, anything else becomes 0. */
  function Flip(x: int): (r: int)
    ensures r == 0 || r == 1
    ensures r == 1 <==> x == 0
  {
    if x == 0 then 1 else 0
  }
}
