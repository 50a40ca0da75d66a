/** The Gmail host that src/app/mail.js drives through the GmailApp,
    GmailThread and GmailMessage objects: threads with their labels, read and
    important flags, location and per-message stars, and the user's labels. */
module MailHost {

  type ThreadId = nat

  datatype Location = Inbox | Archive | Trash | Spam

  datatype Thread = Thread(
    labels: set<string>,
    read: bool,
    important: bool,
    location: Location,
    starred: seq<bool>)   // one star flag per message, in message order

  datatype MailState = MailState(threads: map<ThreadId, Thread>, labels: set<string>)

  /** One host mutation as the rule engine performs it. `AttachLabel` is the
      APPLY_LABEL unit: look the label up, create it if missing, add it to the
      thread. `DetachLabel` is the REMOVE_LABEL unit: a label the user does not
      have is skipped. */
  datatype Effect =
    | AttachLabel(id: ThreadId, name: string)
    | DetachLabel(id: ThreadId, name: string)
    | SetRead(id: ThreadId, read: bool)
    | SetImportant(id: ThreadId, important: bool)
    | MoveTo(id: ThreadId, location: Location)
    | SetStar(id: ThreadId, message: nat, star: bool)

  /** The state after one effect. Only the effect's own thread changes, and
      only AttachLabel changes the user's labels. */
  function Apply(s: MailState, e: Effect): MailState {
    if e.id !in s.threads then s
    else
      var t := s.threads[e.id];
      match e
      case AttachLabel(id, name) =>
        MailState(s.threads[id := t.(labels := t.labels + {name})], s.labels + {name})
      case DetachLabel(id, name) =>
        if name in s.labels then MailState(s.threads[id := t.(labels := t.labels - {name})], s.labels)
        else s
      case SetRead(id, r) => s.(threads := s.threads[id := t.(read := r)])
      case SetImportant(id, i) => s.(threads := s.threads[id := t.(important := i)])
      case MoveTo(id, l) => s.(threads := s.threads[id := t.(location := l)])
      case SetStar(id, m, b) =>
        if m < |t.starred| then s.(threads := s.threads[id := t.(starred := t.starred[m := b])])
        else s
  }

  /** The message count of every thread; no effect changes it. */
  function Counts(s: MailState): (c: map<ThreadId, nat>)
    ensures c.Keys == s.threads.Keys
  {
    map id | id in s.threads :: |s.threads[id].starred|
  }

  lemma ApplyKeepsCounts(s: MailState, e: Effect)
    ensures Counts(Apply(s, e)) == Counts(s)
  {
    var s' := Apply(s, e);
    assert s'.threads.Keys == s.threads.Keys;
    forall id | id in s.threads ensures |s'.threads[id].starred| == |s.threads[id].starred| {
    }
  }

  /** Every thread a search returns exists in the mailbox it searched. */
  ghost predicate SearchSound(search: (string, map<ThreadId, Thread>) -> seq<ThreadId>) {
    forall q: string, m: map<ThreadId, Thread>, k: nat :: k < |search(q, m)| ==> search(q, m)[k] in m
  }

  /** GmailApp with its threads. Search is an oracle over the query and the
      current threads. */
  class Mailbox {
    var threads: map<ThreadId, Thread>
    var labels: set<string>
    const search: (string, map<ThreadId, Thread>) -> seq<ThreadId>

    function State(): MailState
      reads this
    {
      MailState(threads, labels)
    }

    constructor (threads: map<ThreadId, Thread>, labels: set<string>,
                 search: (string, map<ThreadId, Thread>) -> seq<ThreadId>)
      ensures State() == MailState(threads, labels) && this.search == search
    {
      this.threads := threads;
      this.labels := labels;
      this.search := search;
    }

    /** GmailApp.search(query). */
    method Search(query: string) returns (found: seq<ThreadId>)
      requires SearchSound(search)
      ensures found == search(query, threads)
      ensures forall k :: 0 <= k < |found| ==> found[k] in threads
    {
      found := search(query, threads);
    }

    /** GmailApp.getUserLabelByName(name) !== null. */
    method HasUserLabel(name: string) returns (found: bool)
      ensures found == (name in labels)
    {
      found := name in labels;
    }

    /** GmailApp.createLabel(name). */
    method CreateLabel(name: string)
      modifies this
      ensures State() == old(State()).(labels := old(labels) + {name})
    {
      labels := labels + {name};
    }

    /** thread.addLabel(label), for a label the user has. */
    method AddLabel(id: ThreadId, name: string)
      requires id in threads && name in labels
      modifies this
      ensures State() == Apply(old(State()), AttachLabel(id, name))
    {
      threads := threads[id := threads[id].(labels := threads[id].labels + {name})];
    }

    /** thread.removeLabel(label), for a label the user has. */
    method RemoveLabel(id: ThreadId, name: string)
      requires id in threads && name in labels
      modifies this
      ensures State() == Apply(old(State()), DetachLabel(id, name))
    {
      threads := threads[id := threads[id].(labels := threads[id].labels - {name})];
    }

    /** markRead / markUnread. */
    method MarkRead(id: ThreadId, read: bool)
      requires id in threads
      modifies this
      ensures State() == Apply(old(State()), SetRead(id, read))
    {
      threads := threads[id := threads[id].(read := read)];
    }

    /** markImportant / markUnimportant. */
    method MarkImportant(id: ThreadId, important: bool)
      requires id in threads
      modifies this
      ensures State() == Apply(old(State()), SetImportant(id, important))
    {
      threads := threads[id := threads[id].(important := important)];
    }

    /** moveToArchive / moveToInbox / moveToTrash / moveToSpam. */
    method MoveTo(id: ThreadId, location: Location)
      requires id in threads
      modifies this
      ensures State() == Apply(old(State()), Effect.MoveTo(id, location))
    {
      threads := threads[id := threads[id].(location := location)];
    }

    /** thread.getMessages().length. */
    method MessageCount(id: ThreadId) returns (n: nat)
      requires id in threads
      ensures n == |threads[id].starred|
    {
      n := |threads[id].starred|;
    }

    /** message.star() / message.unstar() on the m-th message of the thread. */
    method Star(id: ThreadId, m: nat, star: bool)
      requires id in threads && m < |threads[id].starred|
      modifies this
      ensures State() == Apply(old(State()), SetStar(id, m, star))
    {
      threads := threads[id := threads[id].(starred := threads[id].starred[m := star])];
    }
  }
}
