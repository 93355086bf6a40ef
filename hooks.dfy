/** The hook registration table and the hooks a plugin is linked under. */
module Hooks {
  import opened Wrappers
  import opened Paths

  /** The nine handler method names a plugin may implement. */
  datatype HandlerId =
    | Connected
    | Disconnected
    | MessageReceived
    | MessageSent
    | PresenceStatusChanged
    | ChatPersonAdded
    | ChatPersonRemoved
    | ChatPersonUpdated
    | EventMessage

  /** `HOOK_TABLE`: Smuxi hook name to the method that handles it. */
  const HookTable: map<string, HandlerId> := map[
    "engine/protocol-manager/on-connected"               := Connected,
    "engine/protocol-manager/on-disconnected"            := Disconnected,
    "engine/protocol-manager/on-message-received"        := MessageReceived,
    "engine/protocol-manager/on-message-sent"            := MessageSent,
    "engine/protocol-manager/on-presence-status-changed" := PresenceStatusChanged,
    "engine/session/on-group-chat-person-added"          := ChatPersonAdded,
    "engine/session/on-group-chat-person-removed"        := ChatPersonRemoved,
    "engine/session/on-group-chat-person-updated"        := ChatPersonUpdated,
    "engine/session/on-event-message"                    := EventMessage
  ]

  /** The table's values in the order the Ruby hash enumerates them. */
  const HandlerOrder: seq<HandlerId> := [
    Connected, Disconnected, MessageReceived, MessageSent, PresenceStatusChanged,
    ChatPersonAdded, ChatPersonRemoved, ChatPersonUpdated, EventMessage
  ]

  /** `HOOK_TABLE.invert`: the hook name a handler is registered under. */
  function HookNameOf(id: HandlerId): (name: string)
    ensures name in HookTable && HookTable[name] == id
  {
    match id
    case Connected => "engine/protocol-manager/on-connected"
    case Disconnected => "engine/protocol-manager/on-disconnected"
    case MessageReceived => "engine/protocol-manager/on-message-received"
    case MessageSent => "engine/protocol-manager/on-message-sent"
    case PresenceStatusChanged => "engine/protocol-manager/on-presence-status-changed"
    case ChatPersonAdded => "engine/session/on-group-chat-person-added"
    case ChatPersonRemoved => "engine/session/on-group-chat-person-removed"
    case ChatPersonUpdated => "engine/session/on-group-chat-person-updated"
    case EventMessage => "engine/session/on-event-message"
  }

  /** The table is closed and injective: every handler is registered under
      exactly one hook name, so its inversion loses nothing. */
  lemma HookTableBijective()
    ensures forall id: HandlerId :: id in HookTable.Values
    ensures forall name :: name in HookTable ==> HookNameOf(HookTable[name]) == name
    ensures forall a, b :: a in HookTable && b in HookTable && HookTable[a] == HookTable[b] ==> a == b
    ensures Distinct(HandlerOrder) && forall id: HandlerId :: id in HandlerOrder
  {
    forall id: HandlerId ensures id in HookTable.Values {
      assert HookTable[HookNameOf(id)] == id;
    }
    forall id: HandlerId ensures id in HandlerOrder {
      match id
      case Connected => assert HandlerOrder[0] == id;
      case Disconnected => assert HandlerOrder[1] == id;
      case MessageReceived => assert HandlerOrder[2] == id;
      case MessageSent => assert HandlerOrder[3] == id;
      case PresenceStatusChanged => assert HandlerOrder[4] == id;
      case ChatPersonAdded => assert HandlerOrder[5] == id;
      case ChatPersonRemoved => assert HandlerOrder[6] == id;
      case ChatPersonUpdated => assert HandlerOrder[7] == id;
      case EventMessage => assert HandlerOrder[8] == id;
    }
    HookTableInverse();
  }

  lemma HookTableInverse()
    ensures forall name :: name in HookTable ==> HookNameOf(HookTable[name]) == name
  {
    forall name | name in HookTable ensures HookNameOf(HookTable[name]) == name {
      HookTableKeys(name);
    }
  }

  lemma HookTableKeys(name: string)
    requires name in HookTable
    ensures name in {
      HookNameOf(Connected), HookNameOf(Disconnected), HookNameOf(MessageReceived),
      HookNameOf(MessageSent), HookNameOf(PresenceStatusChanged), HookNameOf(ChatPersonAdded),
      HookNameOf(ChatPersonRemoved), HookNameOf(ChatPersonUpdated), HookNameOf(EventMessage)
    }
  {
  }

  /** The elements of `s` that are in `keep`, in the order of `s`. */
  function Filter(s: seq<HandlerId>, keep: set<HandlerId>): (r: seq<HandlerId>)
    ensures forall x :: x in r <==> x in s && x in keep
    ensures Distinct(s) ==> Distinct(r)
    ensures |r| <= |s|
  {
    if s == [] then []
    else
      var rest := Filter(s[1..], keep);
      assert Distinct(s) ==> Distinct(s[1..]) && s[0] !in s[1..];
      if s[0] in keep then [s[0]] + rest else rest
  }

  /** `used_hook_methods`: the implemented handlers that the table knows, an
      ordered set in table order. The reflection over `instance_methods` is
      replaced by the explicit set `implemented`. */
  function UsedHookMethods(implemented: set<HandlerId>): (r: seq<HandlerId>)
    ensures Distinct(r)
    ensures forall id :: id in r <==> id in implemented && id in HookTable.Values
  {
    HookTableBijective();
    Filter(HandlerOrder, implemented)
  }

  /** `used_hook_names`: each used handler mapped back through the inverted table. */
  function UsedHookNames(implemented: set<HandlerId>): (r: seq<string>)
    ensures |r| == |UsedHookMethods(implemented)|
    ensures forall i :: 0 <= i < |r| ==> r[i] in HookTable && HookTable[r[i]] == UsedHookMethods(implemented)[i]
    ensures forall name :: name in r <==> name in HookTable && HookTable[name] in implemented
    ensures Distinct(r)
  {
    var methods := UsedHookMethods(implemented);
    var r := seq(|methods|, i requires 0 <= i < |methods| => HookNameOf(methods[i]));
    HookTableBijective();
    forall name | name in HookTable && HookTable[name] in implemented ensures name in r {
      var i :| 0 <= i < |methods| && methods[i] == HookTable[name];
      assert r[i] == name;
    }
    r
  }

  /** `<base>/hooks`. */
  function HooksDirectory(baseDirectory: Path): Path {
    Join(baseDirectory, HooksDirectoryName)
  }

  /** `used_hook_paths`: the hooks directory of each used hook name. */
  function UsedHookPaths(baseDirectory: Path, implemented: set<HandlerId>): (r: seq<Path>)
    ensures |r| == |UsedHookNames(implemented)|
    ensures forall i :: 0 <= i < |r| ==> r[i] == Join(HooksDirectory(baseDirectory), UsedHookNames(implemented)[i])
    ensures Distinct(r)
  {
    var names := UsedHookNames(implemented);
    var r := seq(|names|, i requires 0 <= i < |names| => Join(HooksDirectory(baseDirectory), names[i]));
    forall i, j | 0 <= i < j < |r| ensures r[i] != r[j] {
      if r[i] == r[j] {
        JoinInjective(HooksDirectory(baseDirectory), names[i], names[j]);
        assert false;
      }
    }
    r
  }
}
