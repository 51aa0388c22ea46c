/** The admin inbox: contact messages newest first, a read/unread toggle,
    deletion, an unread counter and client-side pages of ten. */
module MessagesTab {
  import opened Lists

  datatype Message = Message(id: string, name: string, email: string, message: string, read: bool, createdAt: string)

  /** `rowsPerPage`. */
  const RowsPerPage: nat := 10

  /** The local list after `handleMarkAsRead(id, currentStatus)` succeeds:
      every message with that id gets `read = !currentStatus`. */
  function WithReadSet(ms: seq<Message>, id: string, currentStatus: bool): (r: seq<Message>)
    ensures |r| == |ms|
    ensures forall i :: 0 <= i < |ms| ==>
      && r[i].(read := ms[i].read) == ms[i]
      && (ms[i].id != id ==> r[i] == ms[i])
      && (ms[i].id == id ==> r[i].read == !currentStatus)
  {
    seq(|ms|, i requires 0 <= i < |ms| =>
      if ms[i].id == id then ms[i].(read := !currentStatus) else ms[i])
  }

  /** The button passes the message's current flag, so pressing it twice
      (the second time with the flag it then shows) restores the list. */
  lemma MarkTwiceRestores(ms: seq<Message>, id: string, currentStatus: bool)
    requires forall i :: 0 <= i < |ms| && ms[i].id == id ==> ms[i].read == currentStatus
    ensures WithReadSet(WithReadSet(ms, id, currentStatus), id, !currentStatus) == ms
  {
    var once := WithReadSet(ms, id, currentStatus);
    var twice := WithReadSet(once, id, !currentStatus);
    forall i | 0 <= i < |ms| ensures twice[i] == ms[i] {
    }
  }

  /** The local list after the message `id` is deleted. */
  function WithoutMessage(ms: seq<Message>, id: string): (r: seq<Message>)
    ensures forall m :: m in r <==> m in ms && m.id != id
    ensures forall m: Message :: m.id != id ==> multiset(r)[m] == multiset(ms)[m]
  {
    var r := Filter(ms, (m: Message) => m.id != id);
    assert forall m :: m in r <==> multiset(r)[m] > 0;
    assert forall m :: m in ms <==> multiset(ms)[m] > 0;
    r
  }

  /** The remaining messages keep their order. */
  lemma WithoutMessageConcat(a: seq<Message>, b: seq<Message>, id: string)
    ensures WithoutMessage(a + b, id) == WithoutMessage(a, id) + WithoutMessage(b, id)
  {
    FilterConcat(a, b, (m: Message) => m.id != id);
  }

  /** `messages.slice((page - 1) * rowsPerPage, page * rowsPerPage)`. */
  function PageItems(ms: seq<Message>, page: int): (r: seq<Message>)
    requires page >= 1
    ensures |r| <= RowsPerPage
    ensures var start := (page - 1) * RowsPerPage;
      && |r| == (if start >= |ms| then 0 else if |ms| - start < RowsPerPage then |ms| - start else RowsPerPage)
      && forall k :: 0 <= k < |r| ==> r[k] == ms[start + k]
  {
    var start := (page - 1) * RowsPerPage;
    var end := page * RowsPerPage;
    if start >= |ms| then [] else if end >= |ms| then ms[start..] else ms[start..end]
  }

  /** `Math.ceil(messages.length / rowsPerPage)`. */
  function PageCount(n: nat): (r: nat)
    ensures r * RowsPerPage >= n
    ensures r > 0 ==> (r - 1) * RowsPerPage < n
    ensures r == 0 <==> n == 0
  {
    (n + RowsPerPage - 1) / RowsPerPage
  }

  /** The pager is rendered when there are more messages than one page
      holds, which is exactly when there is more than one page. */
  function PagerShown(n: nat): (shown: bool)
    ensures shown <==> PageCount(n) > 1
  {
    n > RowsPerPage
  }

  /** Pages 1..count, one after another. */
  function Pages(ms: seq<Message>, count: nat): seq<Message>
  {
    if count == 0 then [] else Pages(ms, count - 1) + PageItems(ms, count)
  }

  lemma {:induction false} PagesPrefix(ms: seq<Message>, count: nat)
    ensures Pages(ms, count) == ms[..if count * RowsPerPage <= |ms| then count * RowsPerPage else |ms|]
  {
    if count > 0 {
      PagesPrefix(ms, count - 1);
    }
  }

  /** Every message is on exactly one page: the pages concatenate back to the list. */
  lemma PagesCoverAll(ms: seq<Message>)
    ensures Pages(ms, PageCount(|ms|)) == ms
  {
    PagesPrefix(ms, PageCount(|ms|));
  }

  predicate IsUnread(m: Message) { !m.read }

  predicate IsRead(m: Message) { m.read }

  /** `messages.filter(m => !m.read).length`: the unread and the read
      messages together are all the messages. */
  function UnreadCount(ms: seq<Message>): (n: nat)
    ensures n + |Filter(ms, IsRead)| == |ms|
  {
    FilterLength(ms, IsUnread, IsRead);
    |Filter(ms, IsUnread)|
  }

  /** The counter reads zero exactly when every message has been read. */
  lemma NoUnreadIffAllRead(ms: seq<Message>)
    ensures UnreadCount(ms) == 0 <==> forall i :: 0 <= i < |ms| ==> ms[i].read
  {
    var r := Filter(ms, IsUnread);
    if |r| > 0 {
      FilterMember(ms, IsUnread, r[0]);
      assert r[0] in r;
    }
    if exists i :: 0 <= i < |ms| && !ms[i].read {
      var i :| 0 <= i < |ms| && !ms[i].read;
      FilterMember(ms, IsUnread, ms[i]);
    }
  }

  /** No two messages share an id. */
  predicate DistinctIds(ms: seq<Message>)
  {
    forall i, j :: 0 <= i < j < |ms| ==> ms[i].id != ms[j].id
  }

  lemma {:induction false} FilterUpdate(s: seq<Message>, k: nat, x: Message, p: Message -> bool)
    requires k < |s|
    ensures |Filter(s[k := x], p)| + (if p(s[k]) then 1 else 0) == |Filter(s, p)| + (if p(x) then 1 else 0)
  {
    var t := s[k := x];
    assert s == s[..k] + [s[k]] + s[k + 1..];
    assert t == s[..k] + [x] + s[k + 1..];
    FilterConcat(s[..k] + [s[k]], s[k + 1..], p);
    FilterConcat(s[..k], [s[k]], p);
    FilterConcat(s[..k] + [x], s[k + 1..], p);
    FilterConcat(s[..k], [x], p);
  }

  /** Toggling one message from the inbox moves the unread counter by exactly one. */
  lemma ToggleMovesUnreadByOne(ms: seq<Message>, k: nat)
    requires DistinctIds(ms) && k < |ms|
    ensures var r := WithReadSet(ms, ms[k].id, ms[k].read);
      UnreadCount(r) == if ms[k].read then UnreadCount(ms) + 1 else UnreadCount(ms) - 1
  {
    var r := WithReadSet(ms, ms[k].id, ms[k].read);
    assert r == ms[k := ms[k].(read := !ms[k].read)];
    FilterUpdate(ms, k, ms[k].(read := !ms[k].read), IsUnread);
  }

  /** The state of `MessagesTab`. */
  class Inbox {
    var messages: seq<Message>
    var page: int

    ghost predicate Valid()
      reads this
    {
      page >= 1
    }

    constructor ()
      ensures Valid() && messages == [] && page == 1
    {
      messages := [];
      page := 1;
    }

    /** `fetchMessages`: `rows` is None when the query failed, Some(None)
        when it returned no data. */
    method FetchMessages(rows: Option<Option<seq<Message>>>)
      requires Valid()
      modifies this`messages
      ensures Valid()
      ensures rows.None? ==> messages == old(messages)
      ensures rows.Some? ==> messages == if rows.value.Some? then rows.value.value else []
    {
      if rows.Some? {
        messages := if rows.value.Some? then rows.value.value else [];
      }
    }

    /** `handleMarkAsRead(id, currentStatus)`; `ok` is the outcome of the update. */
    method MarkAsRead(id: string, currentStatus: bool, ok: bool)
      requires Valid()
      modifies this`messages
      ensures Valid()
      ensures ok ==> messages == WithReadSet(old(messages), id, currentStatus)
      ensures !ok ==> messages == old(messages)
    {
      if ok {
        messages := WithReadSet(messages, id, currentStatus);
      }
    }

    /** `handleDelete`: removal happens only after confirmation and success. */
    method Delete(id: string, confirmed: bool, ok: bool)
      requires Valid()
      modifies this`messages
      ensures Valid()
      ensures confirmed && ok ==> messages == WithoutMessage(old(messages), id)
      ensures !(confirmed && ok) ==> messages == old(messages)
    {
      if confirmed && ok {
        messages := WithoutMessage(messages, id);
      }
    }

    /** The pager's `onChange`, which reports a page number from 1. */
    method SetPage(p: int)
      requires Valid() && p >= 1
      modifies this`page
      ensures Valid() && page == p
    {
      page := p;
    }

    /** `items`: the messages rendered on the current page. */
    method Items() returns (items: seq<Message>)
      requires Valid()
      ensures items == PageItems(messages, page)
    {
      items := PageItems(messages, page);
    }
  }
}
