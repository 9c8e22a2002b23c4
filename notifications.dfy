/** The notification list (Notifications.jsx): its three filters, the
    unread counter and the subtitle. */
module Notifications {
  import opened Seqs
  import opened Text

  datatype Notification = Notification(
    id: int, title: string, message: string, date: string, read: bool, kind: string)

  function Unread(): Notification -> bool {
    (n: Notification) => !n.read
  }

  function IsRead(): Notification -> bool {
    (n: Notification) => n.read
  }

  /** `filteredNotifications`: "all" shows everything, "unread" the unread
      ones, any other value the read ones. */
  function Filtered(ns: seq<Notification>, filter: string): (r: seq<Notification>)
    ensures filter == "all" ==> r == ns
    ensures filter != "all" ==> IsSubseq(r, ns)
    ensures filter == "unread" ==> forall n :: n in r <==> n in ns && !n.read
    ensures filter != "all" && filter != "unread" ==> forall n :: n in r <==> n in ns && n.read
    ensures filter == "unread" ==> forall n :: multiset(r)[n] == if n.read then 0 else multiset(ns)[n]
    ensures filter != "all" && filter != "unread" ==> forall n :: multiset(r)[n] == if n.read then multiset(ns)[n] else 0
  {
    FilterCounts(Unread(), ns);
    FilterCounts(IsRead(), ns);
    FilterIsSubseq(Unread(), ns);
    FilterIsSubseq(IsRead(), ns);
    if filter == "all" then ns
    else if filter == "unread" then Filter(Unread(), ns)
    else Filter(IsRead(), ns)
  }

  function UnreadCount(ns: seq<Notification>): nat {
    |Filter(Unread(), ns)|
  }

  /** The "Read (N)" button shows the list length minus the unread count,
      which is exactly the number of read notifications. */
  lemma ReadCountIsLengthMinusUnread(ns: seq<Notification>)
    ensures UnreadCount(ns) + |Filtered(ns, "read")| == |ns|
  {
    FilterSplit(Unread(), IsRead(), ns);
  }

  /** The subtitle: "All caught up!" with nothing unread, otherwise the
      unread count in words, plural unless it is 1. */
  function Subtitle(unread: nat): (s: string)
    ensures unread == 0 <==> s == "All caught up!"
    ensures unread > 0 ==> |s| > 9 && s[..9] == "You have " && (s[|s| - 1] == 's' <==> unread != 1)
    ensures unread > 0 ==> ShowsCount(s, 9, Decimal(unread), "unread notification")
  {
    if unread > 0 then
      PrefixCounted("You have ", unread, "unread notification");
      "You have " + Counted(unread, "unread notification")
    else "All caught up!"
  }

  /** The mark-as-read button appears only on unread notifications. */
  predicate MarkReadOffered(n: Notification) {
    !n.read
  }
}
