/** The event context: which environment variable feeds which plugin field. */
module Environment {
  import opened Wrappers

  /** The plugin's instance variables that Smuxi's environment fills. */
  datatype Field =
    | ChatId | ChatName | ChatType
    | Message | MessageType
    | MessageTimestampUnix | MessageTimestampIsoUtc | MessageTimestampIsoLocal
    | Sender | Receiver
    | ProtocolManagerType | ProtocolManagerProtocol | ProtocolManagerNetwork
    | ProtocolManagerHost | ProtocolManagerPort | ProtocolManagerMeId
    | ProtocolManagerPresenceStatus
    | PresenceStatusOld | PresenceStatusNew | PresenceStatusNewMessage
    | Command | CommandParameter | CommandCharacter
    | FrontendVersion | EngineVersion

  type Env = map<string, string>

  /** The plugin's view of its event: one optional string per field. */
  type Context = map<Field, Option<string>>

  /** `VARIABLE_TABLE`, in the order the Ruby hash enumerates it. */
  const VariableTable: seq<(string, Field)> := [
    ("SMUXI_CHAT_ID", ChatId),
    ("SMUXI_CHAT_NAME", ChatName),
    ("SMUXI_CHAT_TYPE", ChatType),
    ("SMUXI_MSG", Message),
    ("SMUXI_MSG_TYPE", MessageType),
    ("SMUXI_MSG_TIMESTAMP_UNIX", MessageTimestampUnix),
    ("SMUXI_MSG_TIMESTAMP_ISO_UTC", MessageTimestampIsoUtc),
    ("SMUXI_MSG_TIMESTAMP_ISO_LOCAL", MessageTimestampIsoLocal),
    ("SMUXI_SENDER", Sender),
    ("SMUXI_RECEIVER", Receiver),
    ("SMUXI_PROTOCOL_MANAGER_TYPE", ProtocolManagerType),
    ("SMUXI_PROTOCOL_MANAGER_PROTOCOL", ProtocolManagerProtocol),
    ("SMUXI_PROTOCOL_MANAGER_NETWORK", ProtocolManagerNetwork),
    ("SMUXI_PROTOCOL_MANAGER_HOST", ProtocolManagerHost),
    ("SMUXI_PROTOCOL_MANAGER_PORT", ProtocolManagerPort),
    ("SMUXI_PROTOCOL_MANAGER_ME_ID", ProtocolManagerMeId),
    ("SMUXI_PROTOCOL_MANAGER_PRESENCE_STATUS", ProtocolManagerPresenceStatus),
    ("SMUXI_PRESENCE_STATUS_CHANGED_OLD_STATUS", PresenceStatusOld),
    ("SMUXI_PRESENCE_STATUS_CHANGED_NEW_STATUS", PresenceStatusNew),
    ("SMUXI_PRESENCE_STATUS_CHANGED_NEW_MESSAGE", PresenceStatusNewMessage),
    ("SMUXI_CMD", Command),
    ("SMUXI_CMD_PARAMETER", CommandParameter),
    ("SMUXI_CMD_CHARACTER", CommandCharacter),
    ("SMUXI_FRONTEND_VERSION", FrontendVersion),
    ("SMUXI_ENGINE_VERSION", EngineVersion)
  ]

  /** No field is fed by two entries of `table`. */
  predicate FieldsDistinct(table: seq<(string, Field)>) {
    forall i, j :: 0 <= i < j < |table| ==> table[i].1 != table[j].1
  }

  /** The variable names of `table`. */
  predicate IsTableVariable(table: seq<(string, Field)>, name: string) {
    exists i :: 0 <= i < |table| && table[i].0 == name
  }

  /** The fields set by the first `|table|` steps of the copy loop in
      `initialize`: each entry in turn sets its field to the variable's
      value, or to `nil` when the variable is unset. */
  function ContextOf(env: Env, table: seq<(string, Field)>): Context
    decreases |table|
  {
    if table == [] then map[]
    else
      var last := table[|table| - 1];
      ContextOf(env, table[..|table| - 1])[last.1 := Get(env, last.0)]
  }

  /** The event context that `initialize` builds from the environment. */
  function EventContext(env: Env): Context {
    ContextOf(env, VariableTable)
  }

  /** The copy loop of `initialize`: each table entry in turn sets its field
      to the variable's value, or to `nil` when the variable is unset. */
  method CopyVariables(env: Env, table: seq<(string, Field)>) returns (context: Context)
    ensures context == ContextOf(env, table)
  {
    context := map[];
    var i := 0;
    while i < |table|
      invariant 0 <= i <= |table|
      invariant context == ContextOf(env, table[..i])
    {
      assert table[..i + 1][..i] == table[..i];
      var (name, field) := table[i];
      context := context[field := Get(env, name)];
      i := i + 1;
    }
    assert table[..i] == table;
  }

  /** The table has 25 entries feeding 25 distinct fields. */
  lemma VariableTableWellFormed()
    ensures |VariableTable| == 25
    ensures FieldsDistinct(VariableTable)
  {
    forall i | 0 <= i < |VariableTable| ensures FieldIndex(VariableTable[i].1) == i {
      FieldIndexAt(i);
    }
  }

  /** Position `i` of the table holds the field whose position is `i`. */
  lemma FieldIndexAt(i: nat)
    requires i < |VariableTable|
    ensures FieldIndex(VariableTable[i].1) == i
  {
    if i < 8 {
      FieldIndexFirst(i);
    } else if i < 16 {
      FieldIndexMiddle(i);
    } else {
      FieldIndexLast(i);
    }
  }

  // The three lemmas below differ only in their index range. The lookup in a
  // 25-entry literal table is split three ways because the verifier proves
  // each third far more cheaply than the whole table at once.

  lemma FieldIndexFirst(i: nat)
    requires i < 8
    ensures FieldIndex(VariableTable[i].1) == i
  {
  }

  lemma FieldIndexMiddle(i: nat)
    requires 8 <= i < 16
    ensures FieldIndex(VariableTable[i].1) == i
  {
  }

  lemma FieldIndexLast(i: nat)
    requires 16 <= i < |VariableTable|
    ensures FieldIndex(VariableTable[i].1) == i
  {
  }

  /** The table position of a field. */
  function FieldIndex(f: Field): (i: nat)
    ensures i < |VariableTable| && VariableTable[i].1 == f
  {
    match f
    case ChatId => 0 case ChatName => 1 case ChatType => 2
    case Message => 3 case MessageType => 4
    case MessageTimestampUnix => 5 case MessageTimestampIsoUtc => 6 case MessageTimestampIsoLocal => 7
    case Sender => 8 case Receiver => 9
    case ProtocolManagerType => 10 case ProtocolManagerProtocol => 11 case ProtocolManagerNetwork => 12
    case ProtocolManagerHost => 13 case ProtocolManagerPort => 14 case ProtocolManagerMeId => 15
    case ProtocolManagerPresenceStatus => 16
    case PresenceStatusOld => 17 case PresenceStatusNew => 18 case PresenceStatusNewMessage => 19
    case Command => 20 case CommandParameter => 21 case CommandCharacter => 22
    case FrontendVersion => 23 case EngineVersion => 24
  }

  /** Each entry's field holds its variable's value verbatim, or `None`, and
      only the table's fields are set. */
  lemma ContextOfCopies(env: Env, table: seq<(string, Field)>)
    requires FieldsDistinct(table)
    ensures forall f :: f in ContextOf(env, table) <==> exists i :: 0 <= i < |table| && table[i].1 == f
    ensures forall i :: 0 <= i < |table| ==> ContextOf(env, table)[table[i].1] == Get(env, table[i].0)
  {
    ContextOfKeys(env, table);
    ContextOfValues(env, table);
  }

  /** The fields set are exactly those of the table's entries. */
  lemma {:induction false} ContextOfKeys(env: Env, table: seq<(string, Field)>)
    ensures forall f :: f in ContextOf(env, table) <==> exists i :: 0 <= i < |table| && table[i].1 == f
  {
    if table != [] {
      var init := table[..|table| - 1];
      ContextOfKeys(env, init);
      forall f ensures f in ContextOf(env, table) <==> exists i :: 0 <= i < |table| && table[i].1 == f {
        if f in ContextOf(env, init) {
          var i :| 0 <= i < |init| && init[i].1 == f;
          assert table[i].1 == f;
        }
        if exists i :: 0 <= i < |table| && table[i].1 == f {
          var i :| 0 <= i < |table| && table[i].1 == f;
          if i < |init| { assert init[i].1 == f; }
        }
      }
    }
  }

  /** With distinct fields, each entry's field holds its own variable's value. */
  lemma {:induction false} ContextOfValues(env: Env, table: seq<(string, Field)>)
    requires FieldsDistinct(table)
    ensures forall i :: 0 <= i < |table| ==> table[i].1 in ContextOf(env, table)
    ensures forall i :: 0 <= i < |table| ==> ContextOf(env, table)[table[i].1] == Get(env, table[i].0)
  {
    if table != [] {
      var init := table[..|table| - 1];
      assert FieldsDistinct(init);
      ContextOfValues(env, init);
      forall i | 0 <= i < |table|
        ensures table[i].1 in ContextOf(env, table)
        ensures ContextOf(env, table)[table[i].1] == Get(env, table[i].0)
      {
        if i < |init| {
          assert init[i] == table[i];
        }
      }
    }
  }

  /** `initialize` sets every field from its designated variable, verbatim,
      and `None` exactly when that variable is unset. */
  lemma EventContextCopies(env: Env)
    ensures forall f: Field :: f in EventContext(env)
    ensures forall i :: 0 <= i < |VariableTable| ==> EventContext(env)[VariableTable[i].1] == Get(env, VariableTable[i].0)
  {
    VariableTableWellFormed();
    ContextOfCopies(env, VariableTable);
    forall f: Field ensures f in EventContext(env) {
      var i := FieldIndex(f);
      assert VariableTable[i].1 == f;
    }
  }

  /** Only the table's variables matter: two environments that agree on
      them give the same context. */
  lemma {:induction false} ContextOfIgnoresOthers(a: Env, b: Env, table: seq<(string, Field)>)
    requires forall i :: 0 <= i < |table| ==> Get(a, table[i].0) == Get(b, table[i].0)
    ensures ContextOf(a, table) == ContextOf(b, table)
  {
    if table != [] {
      var init := table[..|table| - 1];
      assert forall i :: 0 <= i < |init| ==> init[i] == table[i];
      ContextOfIgnoresOthers(a, b, init);
      assert Get(a, table[|table| - 1].0) == Get(b, table[|table| - 1].0);
    }
  }

  /** Setting or removing a variable outside the table changes no field. */
  lemma UnknownVariableIgnored(env: Env, name: string, value: string)
    requires !IsTableVariable(VariableTable, name)
    ensures EventContext(env[name := value]) == EventContext(env)
    ensures EventContext(env - {name}) == EventContext(env)
  {
    forall i | 0 <= i < |VariableTable| ensures Get(env[name := value], VariableTable[i].0) == Get(env, VariableTable[i].0) {
      assert VariableTable[i].0 != name;
    }
    ContextOfIgnoresOthers(env[name := value], env, VariableTable);
    forall i | 0 <= i < |VariableTable| ensures Get(env - {name}, VariableTable[i].0) == Get(env, VariableTable[i].0) {
      assert VariableTable[i].0 != name;
    }
    ContextOfIgnoresOthers(env - {name}, env, VariableTable);
  }
}
