/**
 * The sample contract of the repository, examples/example.py, as a test vector
 * for discovery. Its 161 lines are written as a header of comment lines and
 * one section per function: the function's `def NAME():` line and the body
 * lines up to the next one. A comment line is "#" and its text, a body line
 * its four-space indentation and the text after it.
 */
module DiscoveryExample {
  import opened Wrappers
  import opened Discovery

  function DefLine(name: string): string {
    "def " + name + "():"
  }

  function Comment(text: string): string {
    "#" + text
  }

  function Indented(text: string): string {
    "    " + text
  }

  /** A section of the sample: a def line, then body lines none of which begins with 'd'. */
  lemma SectionNames(name: string, body: seq<string>)
    requires IsExportableName(name)
    requires forall line :: line in body ==> |line| == 0 || line[0] != 'd'
    ensures ExportedNames([DefLine(name)] + body) == [name]
  {
    assert ExportedNames([DefLine(name)]) == [name] by {
      DefLineNames(name);
    }
    CollectAppend(NameOfLine, [DefLine(name)], body);
    NotDefLinesIgnored(body);
  }

  lemma DefLineNames(name: string)
    requires IsExportableName(name)
    ensures ExportedNames([DefLine(name)]) == [name]
  {
    assert DefLine(name) == "def " + "" + name + "" + "(" + "):";
    NameOfLineOfShape("", name, "", "):");
    assert [DefLine(name)][..0] == [];
  }

  const Header: seq<string> := [
      Comment(" Monty-NEAR Example Contract"),
      Comment(""),
      Comment(" Exercises every available NEAR host function:"),
      Comment("   value_return, input, log, storage_write, storage_read,"),
      Comment("   storage_remove, storage_has_key, current_account_id,"),
      Comment("   predecessor_account_id, signer_account_id, block_height,"),
      Comment("   block_timestamp, sha256, keccak256"),
      "",
      ""
    ]

  const HelloBody: seq<string> := [
      Indented("\"\"\"Return a greeting. Exercises: value_return.\"\"\""),
      Indented("value_return(\"Hello from Monty on NEAR!\")"),
      "",
      ""
    ]

  const EchoBody: seq<string> := [
      Indented("\"\"\"Return the raw input back to the caller. Exercises: input, value_return.\"\"\""),
      Indented("data = input()"),
      Indented("value_return(data)"),
      "",
      ""
    ]

  const GreetBody: seq<string> := [
      Indented("\"\"\""),
      Indented("Read a name from input and return a personalised greeting."),
      Indented("Expects raw string input (not JSON)."),
      Indented("Exercises: input, value_return, string formatting."),
      Indented("\"\"\""),
      Indented("name = input()"),
      Indented("if name == \"\":"),
      Indented("    name = \"World\""),
      Indented("value_return(\"Hello, \" + name + \"!\")"),
      "",
      ""
    ]

  const CounterBody: seq<string> := [
      Indented("\"\"\""),
      Indented("Increment a persistent counter and return the new value."),
      Indented("Exercises: storage_read, storage_write, value_return."),
      Indented("\"\"\""),
      Indented("count = storage_read(\"count\")"),
      Indented("if count is None:"),
      Indented("    count = 0"),
      Indented("else:"),
      Indented("    count = int(count)"),
      Indented("count = count + 1"),
      Indented("storage_write(\"count\", str(count))"),
      Indented("value_return(str(count))"),
      "",
      ""
    ]

  const GetCounterBody: seq<string> := [
      Indented("\"\"\""),
      Indented("Read the current counter without modifying it."),
      Indented("Exercises: storage_read, value_return."),
      Indented("\"\"\""),
      Indented("count = storage_read(\"count\")"),
      Indented("if count is None:"),
      Indented("    value_return(\"0\")"),
      Indented("else:"),
      Indented("    value_return(count)"),
      "",
      ""
    ]

  const SetGetBody: seq<string> := [
      Indented("\"\"\""),
      Indented("Write the input to storage under 'mykey' and read it back."),
      Indented("Exercises: input, storage_write, storage_read, value_return."),
      Indented("\"\"\""),
      Indented("data = input()"),
      Indented("storage_write(\"mykey\", data)"),
      Indented("result = storage_read(\"mykey\")"),
      Indented("value_return(result)"),
      "",
      ""
    ]

  const RemoveKeyBody: seq<string> := [
      Indented("\"\"\""),
      Indented("Remove 'mykey' from storage and confirm it's gone."),
      Indented("Exercises: storage_remove, storage_has_key, value_return."),
      Indented("\"\"\""),
      Indented("storage_remove(\"mykey\")"),
      Indented("exists = storage_has_key(\"mykey\")"),
      Indented("if exists:"),
      Indented("    value_return(\"still exists\")"),
      Indented("else:"),
      Indented("    value_return(\"removed\")"),
      "",
      ""
    ]

  const WhoamiBody: seq<string> := [
      Indented("\"\"\""),
      Indented("Return the contract's own account ID and current block height."),
      Indented("Exercises: current_account_id, block_height, value_return."),
      Indented("\"\"\""),
      Indented("account = current_account_id()"),
      Indented("height = block_height()"),
      Indented("value_return(account + \" at block \" + str(height))"),
      "",
      ""
    ]

  const CallerInfoBody: seq<string> := [
      Indented("\"\"\""),
      Indented("Return info about who called this method and when."),
      Indented("Exercises: predecessor_account_id, signer_account_id,"),
      Indented("           block_height, block_timestamp, value_return."),
      Indented("\"\"\""),
      Indented("predecessor = predecessor_account_id()"),
      Indented("signer = signer_account_id()"),
      Indented("height = block_height()"),
      Indented("timestamp = block_timestamp()"),
      Indented("result = \"predecessor=\" + predecessor"),
      Indented("result = result + \" signer=\" + signer"),
      Indented("result = result + \" block=\" + str(height)"),
      Indented("result = result + \" timestamp=\" + str(timestamp)"),
      Indented("value_return(result)"),
      "",
      ""
    ]

  const HashItBody: seq<string> := [
      Indented("\"\"\""),
      Indented("Compute SHA-256 and Keccak-256 of the input, return both."),
      Indented("Exercises: input, sha256, keccak256, value_return."),
      Indented("\"\"\""),
      Indented("data = input()"),
      Indented("s = sha256(data)"),
      Indented("k = keccak256(data)"),
      Indented("value_return(\"sha256=\" + s + \" keccak256=\" + k)"),
      "",
      ""
    ]

  const LogAndReturnBody: seq<string> := [
      Indented("\"\"\""),
      Indented("Log a message and return a confirmation."),
      Indented("Exercises: input, log, value_return."),
      Indented("\"\"\""),
      Indented("msg = input()"),
      Indented("if msg == \"\":"),
      Indented("    msg = \"default log message\""),
      Indented("log(\"LOG: \" + msg)"),
      Indented("value_return(\"logged: \" + msg)"),
      "",
      ""
    ]

  const KvPutBody: seq<string> := [
      Indented("\"\"\""),
      Indented("Generic key-value store: write key=<first line>, value=<second line>."),
      Indented("Input format: \"key:value\" separated by a colon."),
      Indented("Exercises: input, storage_write, value_return."),
      Indented("\"\"\""),
      Indented("data = input()"),
      Indented("pos = data.find(\":\")"),
      Indented("if pos < 0:"),
      Indented("    value_return(\"error: expected key:value\")"),
      Indented("else:"),
      Indented("    key = data[0:pos]"),
      Indented("    val = data[pos + 1 :]"),
      Indented("    storage_write(key, val)"),
      Indented("    value_return(\"ok\")"),
      "",
      ""
    ]

  const KvGetBody: seq<string> := [
      Indented("\"\"\""),
      Indented("Generic key-value store: read by key."),
      Indented("Exercises: input, storage_read, value_return."),
      Indented("\"\"\""),
      Indented("key = input()"),
      Indented("val = storage_read(key)"),
      Indented("if val is None:"),
      Indented("    value_return(\"\")"),
      Indented("else:"),
      Indented("    value_return(val)")
    ]

  const Hello: seq<string> := [DefLine("hello")] + HelloBody

  lemma HelloSection()
    ensures ExportedNames(Hello) == ["hello"]
  {
    SectionNames("hello", HelloBody);
  }

  const Echo: seq<string> := [DefLine("echo")] + EchoBody

  lemma EchoSection()
    ensures ExportedNames(Echo) == ["echo"]
  {
    SectionNames("echo", EchoBody);
  }

  const Greet: seq<string> := [DefLine("greet")] + GreetBody

  lemma GreetSection()
    ensures ExportedNames(Greet) == ["greet"]
  {
    SectionNames("greet", GreetBody);
  }

  const Counter: seq<string> := [DefLine("counter")] + CounterBody

  lemma CounterSection()
    ensures ExportedNames(Counter) == ["counter"]
  {
    SectionNames("counter", CounterBody);
  }

  const GetCounter: seq<string> := [DefLine("get_counter")] + GetCounterBody

  lemma GetCounterSection()
    ensures ExportedNames(GetCounter) == ["get_counter"]
  {
    SectionNames("get_counter", GetCounterBody);
  }

  const SetGet: seq<string> := [DefLine("set_get")] + SetGetBody

  lemma SetGetSection()
    ensures ExportedNames(SetGet) == ["set_get"]
  {
    SectionNames("set_get", SetGetBody);
  }

  const RemoveKey: seq<string> := [DefLine("remove_key")] + RemoveKeyBody

  lemma RemoveKeySection()
    ensures ExportedNames(RemoveKey) == ["remove_key"]
  {
    SectionNames("remove_key", RemoveKeyBody);
  }

  const Whoami: seq<string> := [DefLine("whoami")] + WhoamiBody

  lemma WhoamiSection()
    ensures ExportedNames(Whoami) == ["whoami"]
  {
    SectionNames("whoami", WhoamiBody);
  }

  const CallerInfo: seq<string> := [DefLine("caller_info")] + CallerInfoBody

  lemma CallerInfoSection()
    ensures ExportedNames(CallerInfo) == ["caller_info"]
  {
    SectionNames("caller_info", CallerInfoBody);
  }

  const HashIt: seq<string> := [DefLine("hash_it")] + HashItBody

  lemma HashItSection()
    ensures ExportedNames(HashIt) == ["hash_it"]
  {
    SectionNames("hash_it", HashItBody);
  }

  const LogAndReturn: seq<string> := [DefLine("log_and_return")] + LogAndReturnBody

  lemma LogAndReturnSection()
    ensures ExportedNames(LogAndReturn) == ["log_and_return"]
  {
    SectionNames("log_and_return", LogAndReturnBody);
  }

  const KvPut: seq<string> := [DefLine("kv_put")] + KvPutBody

  lemma KvPutSection()
    ensures ExportedNames(KvPut) == ["kv_put"]
  {
    SectionNames("kv_put", KvPutBody);
  }

  const KvGet: seq<string> := [DefLine("kv_get")] + KvGetBody

  lemma KvGetSection()
    ensures ExportedNames(KvGet) == ["kv_get"]
  {
    SectionNames("kv_get", KvGetBody);
  }

  /** A section appended to a prefix of the file adds its names after the prefix's. */
  lemma AppendSection(prefix: seq<string>, section: seq<string>, before: seq<string>, added: seq<string>)
    requires ExportedNames(prefix) == before && ExportedNames(section) == added
    ensures ExportedNames(prefix + section) == before + added
  {
    CollectAppend(NameOfLine, prefix, section);
  }

  lemma HeaderIgnored()
    ensures ExportedNames(Header) == []
  {
    NotDefLinesIgnored(Header);
  }

  lemma ThroughHello()
    ensures ExportedNames(Header + Hello) == ["hello"]
  {
    HeaderIgnored();
    HelloSection();
    CollectAppend(NameOfLine, Header, Hello);
  }

  lemma ThroughEcho()
    ensures ExportedNames(Header + Hello + Echo) == ["hello", "echo"]
  {
    ThroughHello();
    EchoSection();
    AppendSection(Header + Hello, Echo, ExportedNames(Header + Hello), ExportedNames(Echo));
  }

  lemma ThroughGreet()
    ensures ExportedNames(Header + Hello + Echo + Greet) == ["hello", "echo", "greet"]
  {
    ThroughEcho();
    GreetSection();
    AppendSection(Header + Hello + Echo, Greet, ExportedNames(Header + Hello + Echo), ExportedNames(Greet));
  }

  lemma ThroughCounter()
    ensures ExportedNames(Header + Hello + Echo + Greet + Counter) == ["hello", "echo", "greet", "counter"]
  {
    ThroughGreet();
    CounterSection();
    AppendSection(Header + Hello + Echo + Greet, Counter, ExportedNames(Header + Hello + Echo + Greet), ExportedNames(Counter));
  }

  lemma ThroughGetCounter()
    ensures ExportedNames(Header + Hello + Echo + Greet + Counter + GetCounter) == ["hello", "echo", "greet", "counter", "get_counter"]
  {
    ThroughCounter();
    GetCounterSection();
    AppendSection(Header + Hello + Echo + Greet + Counter, GetCounter, ExportedNames(Header + Hello + Echo + Greet + Counter), ExportedNames(GetCounter));
  }

  lemma ThroughSetGet()
    ensures ExportedNames(Header + Hello + Echo + Greet + Counter + GetCounter + SetGet) == ["hello", "echo", "greet", "counter", "get_counter", "set_get"]
  {
    ThroughGetCounter();
    SetGetSection();
    AppendSection(Header + Hello + Echo + Greet + Counter + GetCounter, SetGet, ExportedNames(Header + Hello + Echo + Greet + Counter + GetCounter), ExportedNames(SetGet));
  }

  lemma ThroughRemoveKey()
    ensures ExportedNames(Header + Hello + Echo + Greet + Counter + GetCounter + SetGet + RemoveKey) == ["hello", "echo", "greet", "counter", "get_counter", "set_get", "remove_key"]
  {
    ThroughSetGet();
    RemoveKeySection();
    AppendSection(Header + Hello + Echo + Greet + Counter + GetCounter + SetGet, RemoveKey, ExportedNames(Header + Hello + Echo + Greet + Counter + GetCounter + SetGet), ExportedNames(RemoveKey));
  }

  lemma ThroughWhoami()
    ensures ExportedNames(Header + Hello + Echo + Greet + Counter + GetCounter + SetGet + RemoveKey + Whoami) == ["hello", "echo", "greet", "counter", "get_counter", "set_get", "remove_key", "whoami"]
  {
    ThroughRemoveKey();
    WhoamiSection();
    AppendSection(Header + Hello + Echo + Greet + Counter + GetCounter + SetGet + RemoveKey, Whoami, ExportedNames(Header + Hello + Echo + Greet + Counter + GetCounter + SetGet + RemoveKey), ExportedNames(Whoami));
  }

  lemma ThroughCallerInfo()
    ensures ExportedNames(Header + Hello + Echo + Greet + Counter + GetCounter + SetGet + RemoveKey + Whoami + CallerInfo) == ["hello", "echo", "greet", "counter", "get_counter", "set_get", "remove_key", "whoami", "caller_info"]
  {
    ThroughWhoami();
    CallerInfoSection();
    AppendSection(Header + Hello + Echo + Greet + Counter + GetCounter + SetGet + RemoveKey + Whoami, CallerInfo, ExportedNames(Header + Hello + Echo + Greet + Counter + GetCounter + SetGet + RemoveKey + Whoami), ExportedNames(CallerInfo));
  }

  lemma ThroughHashIt()
    ensures ExportedNames(Header + Hello + Echo + Greet + Counter + GetCounter + SetGet + RemoveKey + Whoami + CallerInfo + HashIt) == ["hello", "echo", "greet", "counter", "get_counter", "set_get", "remove_key", "whoami", "caller_info", "hash_it"]
  {
    ThroughCallerInfo();
    HashItSection();
    AppendSection(Header + Hello + Echo + Greet + Counter + GetCounter + SetGet + RemoveKey + Whoami + CallerInfo, HashIt, ExportedNames(Header + Hello + Echo + Greet + Counter + GetCounter + SetGet + RemoveKey + Whoami + CallerInfo), ExportedNames(HashIt));
  }

  lemma ThroughLogAndReturn()
    ensures ExportedNames(Header + Hello + Echo + Greet + Counter + GetCounter + SetGet + RemoveKey + Whoami + CallerInfo + HashIt + LogAndReturn) == ["hello", "echo", "greet", "counter", "get_counter", "set_get", "remove_key", "whoami", "caller_info", "hash_it", "log_and_return"]
  {
    ThroughHashIt();
    LogAndReturnSection();
    AppendSection(Header + Hello + Echo + Greet + Counter + GetCounter + SetGet + RemoveKey + Whoami + CallerInfo + HashIt, LogAndReturn, ExportedNames(Header + Hello + Echo + Greet + Counter + GetCounter + SetGet + RemoveKey + Whoami + CallerInfo + HashIt), ExportedNames(LogAndReturn));
  }

  lemma ThroughKvPut()
    ensures ExportedNames(Header + Hello + Echo + Greet + Counter + GetCounter + SetGet + RemoveKey + Whoami + CallerInfo + HashIt + LogAndReturn + KvPut) == ["hello", "echo", "greet", "counter", "get_counter", "set_get", "remove_key", "whoami", "caller_info", "hash_it", "log_and_return", "kv_put"]
  {
    ThroughLogAndReturn();
    KvPutSection();
    AppendSection(Header + Hello + Echo + Greet + Counter + GetCounter + SetGet + RemoveKey + Whoami + CallerInfo + HashIt + LogAndReturn, KvPut, ExportedNames(Header + Hello + Echo + Greet + Counter + GetCounter + SetGet + RemoveKey + Whoami + CallerInfo + HashIt + LogAndReturn), ExportedNames(KvPut));
  }

  lemma ThroughKvGet()
    ensures ExportedNames(Header + Hello + Echo + Greet + Counter + GetCounter + SetGet + RemoveKey + Whoami + CallerInfo + HashIt + LogAndReturn + KvPut + KvGet) == ["hello", "echo", "greet", "counter", "get_counter", "set_get", "remove_key", "whoami", "caller_info", "hash_it", "log_and_return", "kv_put", "kv_get"]
  {
    ThroughKvPut();
    KvGetSection();
    AppendSection(Header + Hello + Echo + Greet + Counter + GetCounter + SetGet + RemoveKey + Whoami + CallerInfo + HashIt + LogAndReturn + KvPut, KvGet, ExportedNames(Header + Hello + Echo + Greet + Counter + GetCounter + SetGet + RemoveKey + Whoami + CallerInfo + HashIt + LogAndReturn + KvPut), ExportedNames(KvGet));
  }

  /** The lines of examples/example.py, in order. */
  const ExampleLines: seq<string> :=
    Header + Hello + Echo + Greet + Counter + GetCounter + SetGet + RemoveKey + Whoami + CallerInfo + HashIt + LogAndReturn + KvPut + KvGet

  /** Discovery finds the sample's thirteen functions, in the order they are defined. */
  lemma ExampleContractExports()
    ensures ExportedNames(ExampleLines) == ["hello", "echo", "greet", "counter", "get_counter", "set_get", "remove_key", "whoami", "caller_info", "hash_it", "log_and_return", "kv_put", "kv_get"]
  {
    ThroughKvGet();
  }
}
