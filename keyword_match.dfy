/** The canned-response rule both chat responders follow: walk an ordered
    table of (keyword, reply) pairs and answer with the reply of the first
    keyword that occurs in the message, or with a fallback when none does. */
module KeywordMatch {
  import opened Text

  /** Entries in declaration order; `.0` is the keyword, `.1` the reply. */
  type Table<R> = seq<(string, R)>

  datatype Match = NoMatch | Found(index: nat)

  /** Entry `k` is the earliest entry whose keyword occurs in `message`. */
  ghost predicate IsFirstMatch<R>(table: Table<R>, message: string, k: int)
  {
    0 <= k < |table| && Contains(message, table[k].0)
    && forall j :: 0 <= j < k ==> !Contains(message, table[j].0)
  }

  /** No keyword of the table occurs in `message`. */
  ghost predicate NoKeyOccurs<R>(table: Table<R>, message: string)
  {
    forall j :: 0 <= j < |table| ==> !Contains(message, table[j].0)
  }

  /** The first entry at or after `from` whose keyword occurs in `message`. */
  function FirstMatchFrom<R>(table: Table<R>, message: string, from: nat): (m: Match)
    requires from <= |table|
    ensures m.Found? ==> from <= m.index < |table| && Contains(message, table[m.index].0)
    ensures m.Found? ==> forall j :: from <= j < m.index ==> !Contains(message, table[j].0)
    ensures m.NoMatch? ==> forall j :: from <= j < |table| ==> !Contains(message, table[j].0)
    decreases |table| - from
  {
    if from == |table| then NoMatch
    else if Contains(message, table[from].0) then Found(from)
    else FirstMatchFrom(table, message, from + 1)
  }

  function FirstMatch<R>(table: Table<R>, message: string): (m: Match)
    ensures m.Found? ==> IsFirstMatch(table, message, m.index)
    ensures m.NoMatch? ==> NoKeyOccurs(table, message)
  {
    FirstMatchFrom(table, message, 0)
  }

  /** The reply chosen for `message` (already normalised by the caller). */
  function Reply<R>(table: Table<R>, fallback: R, message: string): (r: R)
    ensures r == fallback || exists k :: 0 <= k < |table| && r == table[k].1
  {
    match FirstMatch(table, message)
    case Found(k) => table[k].1
    case NoMatch => fallback
  }

  /** The reply is that of the first matching entry ... */
  lemma ReplyOfFirstMatch<R>(table: Table<R>, fallback: R, message: string, k: int)
    requires IsFirstMatch(table, message, k)
    ensures Reply(table, fallback, message) == table[k].1
  {
  }

  /** ... and the fallback exactly when no keyword occurs (for a fallback
      that is not itself one of the table's replies). */
  lemma ReplyFallbackIffNoKey<R>(table: Table<R>, fallback: R, message: string)
    requires forall j :: 0 <= j < |table| ==> table[j].1 != fallback
    ensures Reply(table, fallback, message) == fallback <==> NoKeyOccurs(table, message)
  {
    if !NoKeyOccurs(table, message) {
      var m := FirstMatch(table, message);
      assert m.Found?;
    }
  }

  /** Tie-break: once the keyword of entry `i` occurs, the answer comes from
      entry `i` or an earlier one, so no later entry can decide it. */
  lemma EarlierKeyWins<R>(table: Table<R>, message: string, i: nat)
    requires i < |table|
    requires Contains(message, table[i].0)
    ensures FirstMatch(table, message).Found?
    ensures FirstMatch(table, message).index <= i
  {
  }

  /** The search loop of both responders: start from the fallback, scan the
      table in order and stop at the first keyword found. */
  method Respond<R>(table: Table<R>, fallback: R, message: string) returns (response: R)
    ensures response == Reply(table, fallback, message)
  {
    response := fallback;
    var i := 0;
    while i < |table|
      invariant 0 <= i <= |table|
      invariant response == fallback
      invariant forall j :: 0 <= j < i ==> !Contains(message, table[j].0)
    {
      if Contains(message, table[i].0) {
        response := table[i].1;
        ReplyOfFirstMatch(table, fallback, message, i);
        break;
      }
      i := i + 1;
    }
  }
}
