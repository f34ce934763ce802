/**
 * `WebSession`: the session handling of the web front end. One object is one
 * user's cookie session (the `chat_id`, `turn_index` and `current_contract`
 * slots) together with the router client it talks to. The random chat id the
 * front end would draw with `uuid4` is handed in by the caller; HTTP,
 * logging and the error-500 paths are not part of this module.
 */
module WebSession {
  import opened Wrappers
  import opened Text
  import opened ContractRouter

  /** The JSON reply of `/api/chat`. */
  datatype ChatResponse =
    | BadRequest(error: string)
    | Answered(response: string, contract: Option<string>, action: string, chatId: string, turnIndex: nat)

  /** The JSON reply of `/api/get-contract`. */
  datatype ContractReport = ContractReport(contract: Option<string>, hasContract: bool, contractLength: nat)

  /** `session.get("turn_index", 0)` */
  function TurnsSoFar(turnIndex: Option<nat>): nat {
    match turnIndex
    case None => 0
    case Some(n) => n
  }

  /** The contract handed to the router: the front end's when it is truthy, otherwise the session's. */
  function PassedContract(frontend: Option<string>, stored: Option<string>): (r: Option<string>)
    ensures frontend.Some? && frontend.value != "" ==> r == frontend
    ensures (frontend.None? || frontend.value == "") ==> r == stored
  {
    if frontend.Some? && frontend.value != "" then frontend else stored
  }

  /** The router's action as it travels in the reply. */
  function ActionName(a: Action): string {
    match a
    case Updated => "updated"
    case Unchanged => "unchanged"
    case NoContract => "none"
  }

  /** The contract `/api/chat` sends back: the returned one for "updated" and "unchanged", none otherwise. */
  function SentContract(t: Turn): (r: Option<string>)
    ensures t.action.NoContract? ==> r.None?
    ensures !t.action.NoContract? ==> r == t.contract
  {
    if t.action.Updated? || t.action.Unchanged? then t.contract else None
  }

  /** The slots of one session. */
  class Session {
    /** `session["chat_id"]` */
    var chatId: Option<string>
    /** `session["turn_index"]` */
    var turnIndex: Option<nat>
    /** `session["current_contract"]` */
    var currentContract: Option<string>
    /** The application's router client. */
    const client: LLMClient

    /** A new, empty session. */
    constructor (client: LLMClient)
      ensures chatId.None? && turnIndex.None? && currentContract.None? && this.client == client
    {
      chatId, turnIndex, currentContract := None, None, None;
      this.client := client;
    }

    /** The id the session has, or `freshId` when it has none. */
    function ChatIdOr(freshId: string): string
      reads this
    {
      match chatId
      case Some(id) => id
      case None => freshId
    }

    /** `_get_chat_id`: draws an id only when the session has none and returns the same id from then on. */
    method GetChatId(freshId: string) returns (id: string)
      modifies this
      ensures id == old(ChatIdOr(freshId)) && chatId == Some(id)
      ensures old(chatId).Some? ==> chatId == old(chatId)
      ensures turnIndex == old(turnIndex) && currentContract == old(currentContract)
    {
      if chatId.None? {
        chatId := Some(freshId);
      }
      id := chatId.value;
    }

    /** `_next_turn_index`: one more than the stored count (0 when there is none), stored back. */
    method NextTurnIndex() returns (idx: nat)
      modifies this
      ensures idx == TurnsSoFar(old(turnIndex)) + 1 && turnIndex == Some(idx)
      ensures chatId == old(chatId) && currentContract == old(currentContract)
    {
      idx := TurnsSoFar(turnIndex) + 1;
      turnIndex := Some(idx);
    }

    /**
     * `_set_current_contract`: stores the contract in the session and in the
     * router's memory under the session's chat id.
     */
    method SetCurrentContract(contract: string, freshId: string)
      modifies this, client
      ensures currentContract == Some(contract)
      ensures chatId == Some(old(ChatIdOr(freshId))) && turnIndex == old(turnIndex)
      ensures client.memory == old(client.memory)[old(ChatIdOr(freshId)) := contract]
    {
      currentContract := Some(contract);
      var id := GetChatId(freshId);
      client.SetCurrentContract(contract, id);
    }

    /**
     * `_clear_current_contract`: removes the contract from the session and
     * from the router's memory under the session's chat id.
     */
    method ClearCurrentContract(freshId: string)
      modifies this, client
      ensures currentContract.None?
      ensures chatId == Some(old(ChatIdOr(freshId))) && turnIndex == old(turnIndex)
      ensures client.memory == old(client.memory) - {old(ChatIdOr(freshId))}
    {
      if currentContract.Some? {
        currentContract := None;
      }
      var id := GetChatId(freshId);
      client.ClearContract(id);
    }

    /**
     * `/api/chat`: a message that is blank once stripped is refused before
     * anything changes. Otherwise the router answers for the session's chat
     * id with the front end's contract when it is truthy, else the session's;
     * the session's contract is written only for "updated"; the turn counter
     * moves by one.
     */
    method Chat(message: string, frontend: Option<string>, freshId: string,
                classifierReply: ClassifierReply, reply: Option<string>)
      returns (r: ChatResponse, ghost t: Turn)
      modifies this, client
      ensures Strip(message) == "" ==>
        r == BadRequest("Message is required")
        && chatId == old(chatId) && turnIndex == old(turnIndex) && currentContract == old(currentContract)
        && client.memory == old(client.memory)
      ensures Strip(message) != "" ==>
        t == client.Respond(old(client.memory), Strip(message), PassedContract(frontend, old(currentContract)),
                            old(ChatIdOr(freshId)), classifierReply, reply)
      ensures Strip(message) != "" ==>
        var id := old(ChatIdOr(freshId));
        && r == Answered(t.message, SentContract(t), ActionName(t.action), id, TurnsSoFar(old(turnIndex)) + 1)
        && chatId == Some(id) && turnIndex == Some(TurnsSoFar(old(turnIndex)) + 1)
        && currentContract == (if t.action == Updated then t.contract else old(currentContract))
        && client.memory == t.memory
    {
      var userMessage := Strip(message);
      if userMessage == "" {
        return BadRequest("Message is required"), Turn("", None, NoContract, client.memory);
      }
      r, t := Answer(userMessage, frontend, freshId, classifierReply, reply);
    }

    /** The non-blank path of `/api/chat`, for the stripped message. */
    method Answer(userMessage: string, frontend: Option<string>, freshId: string,
                  classifierReply: ClassifierReply, reply: Option<string>)
      returns (r: ChatResponse, ghost t: Turn)
      modifies this, client
      ensures t == client.Respond(old(client.memory), userMessage, PassedContract(frontend, old(currentContract)),
                                  old(ChatIdOr(freshId)), classifierReply, reply)
      ensures var id := old(ChatIdOr(freshId));
        && r == Answered(t.message, SentContract(t), ActionName(t.action), id, TurnsSoFar(old(turnIndex)) + 1)
        && chatId == Some(id) && turnIndex == Some(TurnsSoFar(old(turnIndex)) + 1)
        && currentContract == (if t.action == Updated then t.contract else old(currentContract))
        && client.memory == t.memory
    {
      var current := PassedContract(frontend, currentContract);
      var id := GetChatId(freshId);
      assert id == old(ChatIdOr(freshId)) && current == PassedContract(frontend, old(currentContract));
      ghost var before := client.memory;
      assert before == old(client.memory);
      var response, returned, action := client.GetChatResponse(userMessage, current, id, classifierReply, reply);
      t := client.Respond(before, userMessage, current, id, classifierReply, reply);
      assert t == Turn(response, returned, action, client.memory);
      assert t.message == response && t.contract == returned && t.action == action;
      client.UpdatedIsStored(before, userMessage, current, id, classifierReply, reply);
      var sent: Option<string>;
      if action == Updated {
        ghost var after := client.memory;
        SetCurrentContract(returned.value, freshId);
        UpdateSameValue(after, id, returned.value);
        sent := returned;
      } else if action == Unchanged {
        sent := returned;
      } else {
        sent := None;
      }
      assert sent == SentContract(t);
      var turn := NextTurnIndex();
      r := Answered(response, sent, ActionName(action), id, turn);
    }

    /**
     * `/api/clear-session`: the contract goes from the session and from the
     * router's memory under the chat id (drawn first if there was none, as
     * the event log does), then every slot of the session is emptied.
     */
    method ClearSession(freshId: string)
      modifies this, client
      ensures chatId.None? && turnIndex.None? && currentContract.None?
      ensures client.memory == old(client.memory) - {old(ChatIdOr(freshId))}
    {
      var logged := GetChatId(freshId);
      ClearCurrentContract(freshId);
      chatId, turnIndex, currentContract := None, None, None;
    }

    /** `/api/get-contract`: the stored contract, whether there is one, and its length (0 when absent or empty). */
    function GetContract(): (r: ContractReport)
      reads this
      ensures r.contract == currentContract
      ensures r.hasContract <==> currentContract.Some?
      ensures r.contractLength == if currentContract.Some? then |currentContract.value| else 0
    {
      var length := if currentContract.Some? && currentContract.value != "" then |currentContract.value| else 0;
      ContractReport(currentContract, currentContract.Some?, length)
    }
  }

  /** Writing the value a map already holds leaves it as it was. */
  lemma UpdateSameValue(m: map<string, string>, k: string, v: string)
    requires k in m && m[k] == v
    ensures m[k := v] == m
  {
  }

  /**
   * Two messages and a blank one in a new session: the chat id drawn at the
   * first turn stays, the turn count goes 1, 2, and the blank message is
   * refused.
   */
  method TwoTurns(client: LLMClient, id1: string, id2: string,
                  c1: ClassifierReply, r1: Option<string>, c2: ClassifierReply, r2: Option<string>)
    returns (a: ChatResponse, b: ChatResponse, blank: ChatResponse)
    modifies client
    ensures a.Answered? && a.chatId == id1 && a.turnIndex == 1
    ensures b.Answered? && b.chatId == id1 && b.turnIndex == 2
    ensures blank == BadRequest("Message is required")
  {
    var s := new Session(client);
    ghost var t1, t2, t3;
    a, t1 := s.Chat("hello", None, id1, c1, r1);
    assert Strip("hello") == "hello" by {
      StripTrimmed("hello");
    }
    assert Strip("   ") == "" by {
      StripBlank("   ");
    }
    b, t2 := s.Chat("hello", None, id2, c2, r2);
    blank, t3 := s.Chat("   ", None, id2, c2, r2);
  }
}
