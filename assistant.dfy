/**
 * The assistant's conversation side (`Jarvis/ai.js`): a persistent conversation memory
 * bounded to the 100 most recent messages, a registry of known entity names, the
 * line-per-message prompt sent to the language model, and the intent read back from
 * its reply, with a stop intent as the fallback for a reply that is not JSON. The model
 * call and `JSON.parse` are parameters.
 */
module Assistant {
  import opened Wrappers

  const MAX_MEMORY_MESSAGES: nat := 100

  datatype Message = Message(role: string, content: string)

  /** A JSON value, as `JSON.parse` produces it. */
  datatype Json =
    | JNull
    | JBool(b: bool)
    | JNumber(n: real)
    | JString(s: string)
    | JArray(items: seq<Json>)
    | JObject(fields: seq<(string, Json)>)

  /** The hard safety fallback: `{ type: 'robot', action: 'stop' }`. */
  const STOP_INTENT: Json := JObject([("type", JString("robot")), ("action", JString("stop"))])

  /** The most recent `n` entries of `s`, in order (all of them when there are fewer). */
  function KeepLast<T>(s: seq<T>, n: nat): (r: seq<T>)
    ensures |r| == if |s| <= n then |s| else n
    ensures r == s[|s| - |r|..]
  {
    if |s| > n then s[|s| - n..] else s
  }

  /**
   * Appending a message and trimming: the message is the newest entry, at most 100
   * entries remain, and the ones before it are the newest of the previous memory, in
   * order, so only the oldest entries are ever dropped.
   */
  lemma RememberSpec(memory: seq<Message>, m: Message)
    ensures var r := KeepLast(memory + [m], MAX_MEMORY_MESSAGES);
      && 1 <= |r| <= MAX_MEMORY_MESSAGES
      && r[|r| - 1] == m
      && r[..|r| - 1] == memory[|memory| - (|r| - 1)..]
      && (|memory| < MAX_MEMORY_MESSAGES ==> r == memory + [m])
  {
    var s := memory + [m];
    var r := KeepLast(s, MAX_MEMORY_MESSAGES);
    assert r[..|r| - 1] == s[|s| - |r|..|s| - 1];
    assert s[..|memory|] == memory;
  }

  /** `loadMemory`: the file's list, or the empty list when it is missing or not JSON. */
  function LoadMemory(file: Option<seq<Message>>): (r: seq<Message>)
    ensures file.None? ==> r == []
    ensures file.Some? ==> r == file.value
  {
    file.GetOr([])
  }

  /**
   * `Object.keys(loadRegistry())`: the parsed registry object's keys, one per entry, in
   * the order of `entries`, which lists the object's properties in `Object.keys` order
   * (integer-like keys first, ascending, then the others by first appearance); none when
   * the file is missing or not JSON (`loadRegistry` then returns `{}`).
   */
  function RegistryKeys(file: Option<seq<(string, Json)>>): (r: seq<string>)
    ensures file.None? ==> r == []
    ensures file.Some? ==> |r| == |file.value| && forall i | 0 <= i < |r| :: r[i] == file.value[i].0
  {
    match file
    case None => []
    case Some(entries) => seq(|entries|, i requires 0 <= i < |entries| => entries[i].0)
  }

  /** `toUpperCase` on one character; only the ASCII letters change. */
  function UpperChar(c: char): char {
    if 'a' <= c <= 'z' then (c as int - 32) as char else c
  }

  /** `String.prototype.toUpperCase` on the ASCII letters. */
  function Upper(s: string): (r: string)
    ensures |r| == |s|
    ensures forall i | 0 <= i < |s| :: r[i] == UpperChar(s[i])
  {
    if s == [] then [] else [UpperChar(s[0])] + Upper(s[1..])
  }

  /** `parts.join(sep)`. */
  function Join(parts: seq<string>, sep: string): string
    decreases |parts|
  {
    if parts == [] then ""
    else if |parts| == 1 then parts[0]
    else parts[0] + sep + Join(parts[1..], sep)
  }

  /** `s.split('\n')`: the pieces between newlines, at least one. */
  function SplitLines(s: string): (r: seq<string>)
    ensures |r| >= 1
  {
    if s == [] then [""]
    else
      var rest := SplitLines(s[1..]);
      if s[0] == '\n' then [""] + rest else [[s[0]] + rest[0]] + rest[1..]
  }

  lemma {:induction false} SplitLinesPlain(a: string)
    requires '\n' !in a
    ensures SplitLines(a) == [a]
    decreases |a|
  {
    if a != [] {
      SplitLinesPlain(a[1..]);
      assert [a[0]] + a[1..] == a;
    }
  }

  lemma {:induction false} SplitLinesCons(a: string, t: string)
    requires '\n' !in a
    ensures SplitLines(a + "\n" + t) == [a] + SplitLines(t)
    decreases |a|
  {
    if a == [] {
      assert a + "\n" + t == "\n" + t;
      assert ("\n" + t)[1..] == t;
    } else {
      var s := a + "\n" + t;
      assert s[0] == a[0] && s[1..] == a[1..] + "\n" + t;
      SplitLinesCons(a[1..], t);
      assert [a[0]] + a[1..] == a;
    }
  }

  /** Lines without newlines, joined with newlines, split back into the same lines. */
  lemma {:induction false} SplitJoinLines(lines: seq<string>)
    requires lines != []
    requires forall l | l in lines :: '\n' !in l
    ensures SplitLines(Join(lines, "\n")) == lines
    decreases |lines|
  {
    if |lines| == 1 {
      SplitLinesPlain(lines[0]);
    } else {
      assert lines[0] in lines;
      assert forall l | l in lines[1..] :: l in lines;
      SplitJoinLines(lines[1..]);
      SplitLinesCons(lines[0], Join(lines[1..], "\n"));
      assert [lines[0]] + lines[1..] == lines;
    }
  }

  /** One prompt line: `ROLE: content`. */
  function Render(m: Message): string {
    Upper(m.role) + ": " + m.content
  }

  /** The messages of the prompt: the system prompt, the known entities, the memory, the user's words. */
  function PromptMessages(systemPrompt: string, keys: seq<string>, memory: seq<Message>, prompt: string): seq<Message> {
    [Message("system", systemPrompt), Message("system", "Known entities: " + Join(keys, ", "))]
    + memory + [Message("user", prompt)]
  }

  function RenderAll(ms: seq<Message>): (r: seq<string>)
    ensures |r| == |ms|
    ensures forall i | 0 <= i < |ms| :: r[i] == Render(ms[i])
  {
    if ms == [] then [] else [Render(ms[0])] + RenderAll(ms[1..])
  }

  /** The full prompt: one rendered line per message, joined with newlines. */
  function BuildPrompt(systemPrompt: string, keys: seq<string>, memory: seq<Message>, prompt: string): string {
    Join(RenderAll(PromptMessages(systemPrompt, keys, memory, prompt)), "\n")
  }

  /** The roles as the prompt spells them. */
  lemma RoleNames()
    ensures Upper("system") == "SYSTEM" && Upper("user") == "USER"
  {
    var a, b := Upper("system"), Upper("user");
    assert a[0] == 'S' && a[1] == 'Y' && a[2] == 'S' && a[3] == 'T' && a[4] == 'E' && a[5] == 'M';
    assert b[0] == 'U' && b[1] == 'S' && b[2] == 'E' && b[3] == 'R';
  }

  /**
   * The prompt's lines, in order: the system prompt, the entity list, each remembered
   * message, the user's words, each as `ROLE: content`.
   */
  lemma PromptLines(systemPrompt: string, keys: seq<string>, memory: seq<Message>, prompt: string)
    ensures var lines := RenderAll(PromptMessages(systemPrompt, keys, memory, prompt));
      && |lines| == |memory| + 3
      && lines[0] == "SYSTEM: " + systemPrompt
      && lines[1] == "SYSTEM: Known entities: " + Join(keys, ", ")
      && (forall i | 0 <= i < |memory| :: lines[i + 2] == Render(memory[i]))
      && lines[|lines| - 1] == "USER: " + prompt
  {
    var ms := PromptMessages(systemPrompt, keys, memory, prompt);
    var lines := RenderAll(ms);
    assert ms[0] == Message("system", systemPrompt);
    assert ms[1] == Message("system", "Known entities: " + Join(keys, ", "));
    assert ms[|ms| - 1] == Message("user", prompt);
    RenderSystem(systemPrompt);
    RenderEntities(Join(keys, ", "));
    RenderUser(prompt);
    forall i | 0 <= i < |memory|
      ensures lines[i + 2] == Render(memory[i])
    {
      MiddleIndex([Message("system", systemPrompt), Message("system", "Known entities: " + Join(keys, ", "))],
        memory, [Message("user", prompt)], i);
    }
  }

  lemma MiddleIndex<T>(a: seq<T>, m: seq<T>, c: seq<T>, i: nat)
    requires i < |m|
    ensures (a + m + c)[|a| + i] == m[i]
  {
  }

  lemma RenderSystem(content: string)
    ensures Render(Message("system", content)) == "SYSTEM: " + content
  {
    RoleNames();
  }

  lemma RenderEntities(names: string)
    ensures Render(Message("system", "Known entities: " + names)) == "SYSTEM: Known entities: " + names
  {
    RenderSystem("Known entities: " + names);
    assert "SYSTEM: " + ("Known entities: " + names) == ("SYSTEM: " + "Known entities: ") + names;
    assert "SYSTEM: " + "Known entities: " == "SYSTEM: Known entities: ";
  }

  lemma RenderUser(content: string)
    ensures Render(Message("user", content)) == "USER: " + content
  {
    RoleNames();
  }

  /** When no line contains a newline, splitting the prompt at newlines gives back its lines. */
  lemma PromptSplit(systemPrompt: string, keys: seq<string>, memory: seq<Message>, prompt: string)
    requires forall l | l in RenderAll(PromptMessages(systemPrompt, keys, memory, prompt)) :: '\n' !in l
    ensures SplitLines(BuildPrompt(systemPrompt, keys, memory, prompt))
      == RenderAll(PromptMessages(systemPrompt, keys, memory, prompt))
  {
    SplitJoinLines(RenderAll(PromptMessages(systemPrompt, keys, memory, prompt)));
  }

  /** JavaScript's white space and line terminators, as `trim` removes them. */
  predicate IsJsSpace(c: char) {
    var u := c as int;
    || 0x09 <= u <= 0x0D || u == 0x20 || u == 0xA0 || u == 0x1680 || 0x2000 <= u <= 0x200A
    || u == 0x2028 || u == 0x2029 || u == 0x202F || u == 0x205F || u == 0x3000 || u == 0xFEFF
  }

  /** The first position at or after `i` that does not hold white space. */
  function FirstNonSpace(s: string, i: nat): (r: nat)
    requires i <= |s|
    ensures i <= r <= |s|
    ensures forall k | i <= k < r :: IsJsSpace(s[k])
    ensures r < |s| ==> !IsJsSpace(s[r])
    decreases |s| - i
  {
    if i < |s| && IsJsSpace(s[i]) then FirstNonSpace(s, i + 1) else i
  }

  /** The end of `s[lo..j]` once its trailing white space is dropped. */
  function EndOfNonSpace(s: string, lo: nat, j: nat): (r: nat)
    requires lo <= j <= |s|
    ensures lo <= r <= j
    ensures forall k | r <= k < j :: IsJsSpace(s[k])
    ensures lo < r ==> !IsJsSpace(s[r - 1])
    decreases j
  {
    if lo < j && IsJsSpace(s[j - 1]) then EndOfNonSpace(s, lo, j - 1) else j
  }

  /** `String.prototype.trim`: the part between the leading and the trailing white space. */
  function Trim(s: string): string {
    var i := FirstNonSpace(s, 0);
    s[i..EndOfNonSpace(s, i, |s|)]
  }

  /**
   * `trim` removes exactly the white space at both ends: the result is a contiguous
   * part of the input, everything cut off is white space, and the result neither
   * starts nor ends with white space.
   */
  lemma TrimSpec(s: string)
    ensures exists i, j ::
      && 0 <= i <= j <= |s| && Trim(s) == s[i..j]
      && (forall k | 0 <= k < i :: IsJsSpace(s[k]))
      && (forall k | j <= k < |s| :: IsJsSpace(s[k]))
    ensures Trim(s) != [] ==> !IsJsSpace(Trim(s)[0]) && !IsJsSpace(Trim(s)[|Trim(s)| - 1])
  {
    var i := FirstNonSpace(s, 0);
    var j := EndOfNonSpace(s, i, |s|);
    assert Trim(s) == s[i..j];
  }

  /** `result.response?.trim() || '{}'`: a missing or blank response reads as `{}`. */
  function RawReply(response: Option<string>): (raw: string)
    ensures raw != []
    ensures response.None? ==> raw == "{}"
    ensures response.Some? && Trim(response.value) == [] ==> raw == "{}"
    ensures response.Some? && Trim(response.value) != [] ==> raw == Trim(response.value)
  {
    if response.None? || Trim(response.value) == [] then "{}" else Trim(response.value)
  }

  /** The intent: the parsed reply, or the stop intent when the reply is not JSON. */
  function IntentOf(raw: string, parse: string -> Option<Json>): (intent: Json)
    ensures parse(raw).Some? ==> intent == parse(raw).value
    ensures parse(raw).None? ==> intent == STOP_INTENT
  {
    match parse(raw)
    case Some(v) => v
    case None => STOP_INTENT
  }

  /**
   * A missing reply is not the stop fallback: it reads as `{}`, which any JSON parser
   * accepts as the empty object, so the intent is an empty object.
   */
  lemma MissingReplyIntent(parse: string -> Option<Json>)
    requires parse("{}") == Some(JObject([]))
    ensures IntentOf(RawReply(None), parse) == JObject([])
    ensures IntentOf(RawReply(None), parse) != STOP_INTENT
  {
  }

  /** How the model request ended: failed, or answered with an optional `response` field. */
  datatype Outcome = Failed | Answered(response: Option<string>)

  class Conversation {
    /** The memory file's contents; `None` when it is missing or not JSON. */
    var memoryFile: Option<seq<Message>>
    /** The registry file's parsed object entries; `None` when it is missing or not JSON. */
    var registryFile: Option<seq<(string, Json)>>

    function Memory(): seq<Message>
      reads this
    {
      LoadMemory(memoryFile)
    }

    constructor (memoryFile: Option<seq<Message>>, registryFile: Option<seq<(string, Json)>>)
      ensures this.memoryFile == memoryFile && this.registryFile == registryFile
    {
      this.memoryFile, this.registryFile := memoryFile, registryFile;
    }

    /**
     * `addToMemory`: load, push the message, drop the oldest entries beyond 100, save.
     * A memory that could not be read starts afresh.
     */
    method AddToMemory(role: string, content: string)
      modifies this`memoryFile
      ensures memoryFile == Some(KeepLast(old(Memory()) + [Message(role, content)], MAX_MEMORY_MESSAGES))
    {
      var memory := Memory();
      memory := memory + [Message(role, content)];
      if |memory| > MAX_MEMORY_MESSAGES {
        memory := memory[|memory| - MAX_MEMORY_MESSAGES..];
      }
      memoryFile := Some(memory);
    }

    /**
     * `getIntent`: the prompt sent is built from the memory and registry as loaded
     * before the call. A failed request throws before anything is remembered. An
     * answered one remembers the user's words and then the raw reply, and yields the
     * parsed reply or the stop intent.
     */
    method GetIntent(prompt: string, systemPrompt: string, outcome: Outcome, parse: string -> Option<Json>)
      returns (sent: string, intent: Option<Json>)
      modifies this`memoryFile
      ensures sent == BuildPrompt(systemPrompt, RegistryKeys(old(registryFile)), old(Memory()), prompt)
      ensures outcome.Failed? ==> intent == None && memoryFile == old(memoryFile)
      ensures outcome.Answered? ==>
        var raw := RawReply(outcome.response);
        && intent == Some(IntentOf(raw, parse))
        && memoryFile == Some(KeepLast(KeepLast(old(Memory()) + [Message("user", prompt)], MAX_MEMORY_MESSAGES)
                                       + [Message("assistant", raw)], MAX_MEMORY_MESSAGES))
    {
      var memory := Memory();
      var keys := RegistryKeys(registryFile);
      sent := BuildPrompt(systemPrompt, keys, memory, prompt);
      if outcome.Failed? {
        return sent, None;
      }
      var raw := RawReply(outcome.response);
      AddToMemory("user", prompt);
      ghost var m1 := KeepLast(memory + [Message("user", prompt)], MAX_MEMORY_MESSAGES);
      assert memoryFile == Some(m1);
      AddToMemory("assistant", raw);
      var parsed := parse(raw);
      if parsed.Some? {
        intent := Some(parsed.value);
      } else {
        intent := Some(STOP_INTENT);
      }
    }
  }

  /**
   * After an answered request the memory ends with the user's words and then the
   * reply, holds at most 100 entries, and before those two keeps the newest of the
   * earlier memory, in order.
   */
  lemma ExchangeRemembered(memory: seq<Message>, user: Message, reply: Message)
    ensures var r := KeepLast(KeepLast(memory + [user], MAX_MEMORY_MESSAGES) + [reply], MAX_MEMORY_MESSAGES);
      && 2 <= |r| <= MAX_MEMORY_MESSAGES
      && r[|r| - 2..] == [user, reply]
      && r[..|r| - 2] == memory[|memory| - (|r| - 2)..]
  {
    var m1 := KeepLast(memory + [user], MAX_MEMORY_MESSAGES);
    var r := KeepLast(m1 + [reply], MAX_MEMORY_MESSAGES);
    KeepLastSnoc(memory, user, MAX_MEMORY_MESSAGES);
    KeepLastSnoc(m1, reply, MAX_MEMORY_MESSAGES);
    var older := memory[|memory| - (|m1| - 1)..];
    var kept := older[|older| - (|r| - 2)..];
    DropSnoc(older, user, |older| - (|r| - 2));
    LastOfLast(memory, |m1| - 1, |r| - 2);
    SnocSnoc(r, kept, user, reply);
  }

  /** The last `j` elements of the last `i` elements are the last `j`. */
  lemma LastOfLast<T>(s: seq<T>, i: nat, j: nat)
    requires j <= i <= |s|
    ensures s[|s| - i..][i - j..] == s[|s| - j..]
  {
  }

  /** A sequence ending in `u` then `x` splits before those two. */
  lemma SnocSnoc<T>(r: seq<T>, a: seq<T>, u: T, x: T)
    requires r == a + [u] + [x]
    ensures 2 <= |r| && r[|r| - 2..] == [u, x] && r[..|r| - 2] == a
  {
  }

  /** Trimming after a push keeps the pushed entry last, after the newest earlier ones. */
  lemma KeepLastSnoc<T>(s: seq<T>, x: T, n: nat)
    requires 1 <= n
    ensures var r := KeepLast(s + [x], n);
      && 1 <= |r| && r == s[|s| - (|r| - 1)..] + [x]
  {
    var r := KeepLast(s + [x], n);
    assert r == (s + [x])[|s| + 1 - |r|..];
    assert (s + [x])[|s| + 1 - |r|..] == s[|s| + 1 - |r|..] + [x];
  }

  lemma DropSnoc<T>(s: seq<T>, x: T, j: nat)
    requires j <= |s|
    ensures (s + [x])[j..] == s[j..] + [x]
  {
  }
}
