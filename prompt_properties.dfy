/** What the message list built by `chat_with_translation` looks like: one system entry first,
    the history's other entries in order, the user's message last. */
module PromptProperties {
  import opened JsonValue
  import opened Schema
  import opened Chat

  /** The dict's `role` is `role`. */
  predicate HasRole(d: Dict, role: string) {
    "role" in d && d["role"] == JString(role)
  }

  /** How many dicts of `ds` have role `role`. */
  function CountRole(ds: seq<Dict>, role: string): nat {
    if ds == [] then 0
    else (if HasRole(ds[0], role) then 1 else 0) + CountRole(ds[1..], role)
  }

  lemma {:induction false} CountRoleAppend(a: seq<Dict>, b: seq<Dict>, role: string)
    ensures CountRole(a + b, role) == CountRole(a, role) + CountRole(b, role)
  {
    if a == [] {
      assert a + b == b;
    } else {
      assert (a + b)[1..] == a[1..] + b;
      CountRoleAppend(a[1..], b, role);
    }
  }

  /** The written form of a message carries that message's role. */
  lemma EntryRole(m: Message, role: string)
    ensures HasRole(m.ToDict(), role) <==> m.role == role
  {
  }

  /** None of the history entries that survive the filter is a system entry. */
  lemma {:induction false} KeptHistoryHasNoSystemEntry(history: seq<Message>)
    ensures CountRole(ToDicts(NonSystem(history)), SystemRole) == 0
  {
    if history != [] {
      var rest := NonSystem(history[1..]);
      KeptHistoryHasNoSystemEntry(history[1..]);
      if history[0].role == SystemRole {
        assert NonSystem(history) == rest;
      } else {
        assert NonSystem(history) == [history[0]] + rest;
        ToDictsAppend([history[0]], rest);
        CountRoleAppend(ToDicts([history[0]]), ToDicts(rest), SystemRole);
        EntryRole(history[0], SystemRole);
      }
    }
  }

  /** The filter keeps exactly the non-system entries: as many as the history has entries
      minus its system entries. */
  lemma {:induction false} KeptHistoryLength(history: seq<Message>)
    ensures |NonSystem(history)| == |history| - CountRole(ToDicts(history), SystemRole)
  {
    if history != [] {
      KeptHistoryLength(history[1..]);
      assert ToDicts(history) == [history[0].ToDict()] + ToDicts(history[1..]);
      EntryRole(history[0], SystemRole);
    }
  }

  /** A history without system entries is passed on whole. */
  lemma {:induction false} CleanHistoryKept(history: seq<Message>)
    requires forall m <- history :: m.role != SystemRole
    ensures NonSystem(history) == history
  {
    if history != [] {
      assert forall m <- history[1..] :: m in history;
      CleanHistoryKept(history[1..]);
    }
  }

  /** `ks` lists, in increasing order, the positions in `history` of the entries of `kept`, and
      it lists every position whose role is not "system". */
  predicate SelectsInOrder(history: seq<Message>, kept: seq<Message>, ks: seq<nat>) {
    && |ks| == |kept|
    && (forall j :: 0 <= j < |ks| ==> ks[j] < |history| && kept[j] == history[ks[j]])
    && (forall j, j' :: 0 <= j < j' < |ks| ==> ks[j] < ks[j'])
    && (forall i :: 0 <= i < |history| && history[i].role != SystemRole ==> i in ks)
  }

  /** Filtering a history with one more entry at the end. */
  lemma NonSystemSnoc(prefix: seq<Message>, last: Message)
    ensures NonSystem(prefix + [last]) ==
      NonSystem(prefix) + (if last.role == SystemRole then [] else [last])
  {
    NonSystemAppend(prefix, [last]);
    assert [last][1..] == [];
  }

  /** Appending one entry to the history extends a selection by that entry's position, unless
      it is a system entry. */
  lemma SelectsExtend(prefix: seq<Message>, kept: seq<Message>, ks: seq<nat>, last: Message)
    requires SelectsInOrder(prefix, kept, ks)
    ensures SelectsInOrder(prefix + [last],
                           kept + (if last.role == SystemRole then [] else [last]),
                           ks + (if last.role == SystemRole then [] else [|prefix|]))
  {
    var history := prefix + [last];
    forall j | 0 <= j < |ks| ensures ks[j] < |history| && kept[j] == history[ks[j]] {
      assert history[ks[j]] == prefix[ks[j]];
    }
    forall i | 0 <= i < |prefix| && history[i].role != SystemRole ensures i in ks {
      assert history[i] == prefix[i];
    }
  }

  /** The kept history is the non-system entries of the history, each once, in their original
      order. */
  lemma {:induction false} NonSystemKeepsOrder(history: seq<Message>)
    ensures exists ks :: SelectsInOrder(history, NonSystem(history), ks)
  {
    if history == [] {
      assert NonSystem(history) == [];
      assert SelectsInOrder(history, NonSystem(history), []);
    } else {
      var n := |history| - 1;
      var prefix, last := history[..n], history[n];
      assert history == prefix + [last];
      NonSystemKeepsOrder(prefix);
      var ks :| SelectsInOrder(prefix, NonSystem(prefix), ks);
      NonSystemSnoc(prefix, last);
      SelectsExtend(prefix, NonSystem(prefix), ks, last);
      assert SelectsInOrder(history, NonSystem(history),
                            ks + (if last.role == SystemRole then [] else [n]));
    }
  }

  /** The list starts with the system instruction, ends with the user's message and holds the
      kept history, in order, in between. */
  lemma PromptShape(systemPrompt: string, req: Request)
    ensures var p := Prompt(systemPrompt, req);
      && |p| == 2 + |NonSystem(req.history)|
      && p[0] == map["role" := JString("system"), "content" := JString(systemPrompt)]
      && p[|p| - 1] == map["role" := JString("user"), "content" := JString(req.newMessage)]
      && p[1..|p| - 1] == ToDicts(NonSystem(req.history))
  {
  }

  /** However many system entries the history holds, the list has exactly one. */
  lemma ExactlyOneSystemEntry(systemPrompt: string, req: Request)
    ensures CountRole(Prompt(systemPrompt, req), SystemRole) == 1
  {
    var kept := ToDicts(NonSystem(req.history));
    var sys, user := Entry(SystemRole, systemPrompt), Entry(UserRole, req.newMessage);
    CountRoleAppend([sys], kept, SystemRole);
    CountRoleAppend([sys] + kept, [user], SystemRole);
    KeptHistoryHasNoSystemEntry(req.history);
    assert CountRole([user], SystemRole) == 0;
  }

  /** The list is two entries longer than the history's non-system part. */
  lemma PromptLength(systemPrompt: string, req: Request)
    ensures |Prompt(systemPrompt, req)| ==
      2 + |req.history| - CountRole(ToDicts(req.history), SystemRole)
  {
    KeptHistoryLength(req.history);
  }
}
