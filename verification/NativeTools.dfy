/** From a model reply to actions and wire messages (scientist/native_tools.py). */
module NativeTools {
  import opened Basics
  import opened Messages

  /** `parsed` holds the top-level keys of arguments that parsed to an object. */
  datatype ToolCall = ToolCall(id: string, name: string, raw: string, parsed: Option<map<string, string>>)

  datatype Reply = Reply(text: string, calls: seq<ToolCall>)

  datatype Action = Action(name: string, callId: string)

  /** The parsed arguments are merged over the action's own two keys. */
  function ActionOf(c: ToolCall): Action {
    match c.parsed
    case None => Action(c.name, c.id)
    case Some(args) =>
      Action(if "action" in args then args["action"] else c.name,
             if "tool_call_id" in args then args["tool_call_id"] else c.id)
  }

  function ActionsOf(calls: seq<ToolCall>): (actions: seq<Action>)
    ensures |actions| == |calls|
  {
    seq(|calls|, i requires 0 <= i < |calls| => ActionOf(calls[i]))
  }

  method NativeActions(reply: Reply) returns (actions: seq<Action>)
    ensures actions == ActionsOf(reply.calls)
  {
    actions := [];
    for i := 0 to |reply.calls|
      invariant |actions| == i
      invariant forall j | 0 <= j < i :: actions[j] == ActionOf(reply.calls[j])
    {
      var call := reply.calls[i];
      var action := Action(call.name, call.id);
      if call.parsed.Some? {
        if "action" in call.parsed.value {
          action := action.(name := call.parsed.value["action"]);
        }
        if "tool_call_id" in call.parsed.value {
          action := action.(callId := call.parsed.value["tool_call_id"]);
        }
      }
      actions := actions + [action];
    }
  }

  function WireCalls(calls: seq<ToolCall>): (wire: seq<WireCall>)
    ensures |wire| == |calls|
  {
    seq(|calls|, i requires 0 <= i < |calls| =>
      WireCall(calls[i].id, calls[i].name, if calls[i].raw == "" then "{}" else calls[i].raw))
  }

  function WireAssistant(reply: Reply): Message {
    Assistant(reply.text, WireCalls(reply.calls))
  }

  function WireResults(calls: seq<ToolCall>, observations: seq<string>): (results: seq<Message>)
    requires |observations| == |calls|
    ensures |results| == |calls|
  {
    seq(|calls|, i requires 0 <= i < |calls| => Result(ActionOf(calls[i]).callId, observations[i]))
  }

  /** No argument object renames the call it belongs to. */
  predicate KeepsIds(calls: seq<ToolCall>) {
    forall i | 0 <= i < |calls| :: ActionOf(calls[i]).callId == calls[i].id
  }

  lemma ResultIds(calls: seq<ToolCall>, observations: seq<string>)
    requires |observations| == |calls|
    ensures AllResults(WireResults(calls, observations))
    ensures forall i | 0 <= i < |calls| ::
              AnsweredIds(WireResults(calls, observations))[i] == ActionsOf(calls)[i].callId
    ensures forall i | 0 <= i < |calls| :: CallIds(WireCalls(calls))[i] == calls[i].id
    ensures KeepsIds(calls) ==> AnsweredIds(WireResults(calls, observations)) == CallIds(WireCalls(calls))
  {
  }

  ghost function ActionIds(calls: seq<ToolCall>): set<string> {
    set i | 0 <= i < |calls| :: ActionOf(calls[i]).callId
  }

  /** A tool turn is paired exactly when the ids the actions carry are, as a
      set, the ids of the calls. Arguments with a `tool_call_id` key decide. */
  lemma TurnPairsIffIdsAgree(reply: Reply, observations: seq<string>)
    requires reply.calls != [] && |observations| == |reply.calls|
    ensures Paired([WireAssistant(reply)] + WireResults(reply.calls, observations))
       <==> ActionIds(reply.calls) == Elements(CallIds(WireCalls(reply.calls)))
  {
    var head, results := WireAssistant(reply), WireResults(reply.calls, observations);
    ResultIds(reply.calls, observations);
    assert Elements(AnsweredIds(results)) == ActionIds(reply.calls) by {
      forall x | x in ActionIds(reply.calls) ensures x in AnsweredIds(results) {
        var i :| 0 <= i < |reply.calls| && ActionOf(reply.calls[i]).callId == x;
        assert AnsweredIds(results)[i] == x;
      }
    }
    assert Calls(head);
    TakeTurn(head, results, []);
    assert [head] + results + [] == [head] + results;
  }
}
