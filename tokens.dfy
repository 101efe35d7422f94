/**
 * Token status classification on the token manager screen: the active,
 * used and expired sub-lists and the list shown for the selected filter.
 * Clock readings are integer milliseconds since the epoch.
 */
module Tokens {
  import opened Wrappers
  import opened Seqs

  /** A token document as loaded from the `tokens` collection. */
  datatype Token = Token(
    tokenCode: string,
    studentName: string,
    studentPhone: string,
    status: string,        // "active" when issued; the student application sets "used"
    createdAt: int,        // creation time in milliseconds
    score: Option<int>,    // absent until the student finishes
    finalTimeLeft: int)    // seconds left at finish

  /** Twenty-four hours in milliseconds. */
  const DayMillis: int := 24 * 60 * 60 * 1000

  /**
   * `isExpired`: a token expires strictly more than 24 hours after creation, so
   * on the millisecond clock the first expired instant is 24 hours plus 1 ms.
   */
  predicate IsExpired(createdAt: int, now: int): (expired: bool)
    ensures expired <==> now >= createdAt + DayMillis + 1
    ensures now <= createdAt + DayMillis ==> !expired
  {
    now - createdAt > DayMillis
  }

  predicate IsUsed(t: Token) {
    t.status == "used"
  }

  function ActiveAt(now: int): Token -> bool {
    (t: Token) => t.status == "active" && !IsExpired(t.createdAt, now)
  }

  function ExpiredAt(now: int): Token -> bool {
    (t: Token) => IsExpired(t.createdAt, now)
  }

  /** Tokens still usable: status `active` and not expired, in list order, each as often as in the list. */
  function ActiveTokens(tokens: seq<Token>, now: int): (r: seq<Token>)
    ensures forall t :: t in r <==> t in tokens && t.status == "active" && !IsExpired(t.createdAt, now)
    ensures |r| <= |tokens|
    ensures forall t :: multiset(r)[t] ==
              if t.status == "active" && !IsExpired(t.createdAt, now) then multiset(tokens)[t] else 0
  {
    FilterMultiset(ActiveAt(now), tokens);
    Filter(ActiveAt(now), tokens)
  }

  /** Tokens with status `used`, whatever their age, in list order, each as often as in the list. */
  function UsedTokens(tokens: seq<Token>): (r: seq<Token>)
    ensures forall t :: t in r <==> t in tokens && t.status == "used"
    ensures |r| <= |tokens|
    ensures forall t :: multiset(r)[t] == if t.status == "used" then multiset(tokens)[t] else 0
  {
    FilterMultiset(IsUsed, tokens);
    Filter(IsUsed, tokens)
  }

  /** Tokens older than 24 hours, whatever their status, in list order, each as often as in the list. */
  function ExpiredTokens(tokens: seq<Token>, now: int): (r: seq<Token>)
    ensures forall t :: t in r <==> t in tokens && IsExpired(t.createdAt, now)
    ensures |r| <= |tokens|
    ensures forall t :: multiset(r)[t] == if IsExpired(t.createdAt, now) then multiset(tokens)[t] else 0
  {
    FilterMultiset(ExpiredAt(now), tokens);
    Filter(ExpiredAt(now), tokens)
  }

  /** Whether the filter key `filterStatus` shows token `t`; any key other than the three shows every token. */
  predicate ShownUnder(filterStatus: string, t: Token, now: int) {
    match filterStatus
    case "active" => t.status == "active" && !IsExpired(t.createdAt, now)
    case "used" => t.status == "used"
    case "expired" => IsExpired(t.createdAt, now)
    case _ => true
  }

  /** The list the token table shows for the selected filter. */
  function FilteredList(tokens: seq<Token>, filterStatus: string, now: int): (r: seq<Token>)
    ensures forall t :: t in r <==> t in tokens && ShownUnder(filterStatus, t, now)
    ensures forall t :: multiset(r)[t] == if ShownUnder(filterStatus, t, now) then multiset(tokens)[t] else 0
    ensures filterStatus !in {"active", "used", "expired"} ==> r == tokens
  {
    match filterStatus
    case "active" => ActiveTokens(tokens, now)
    case "used" => UsedTokens(tokens)
    case "expired" => ExpiredTokens(tokens, now)
    case _ => tokens
  }

  /** Every filtered list keeps the order of the token list. */
  lemma {:induction false} FilteredListKeepsOrder(tokens: seq<Token>, filterStatus: string, now: int)
    ensures IsSubseq(FilteredList(tokens, filterStatus, now), tokens)
  {
    match filterStatus
    case "active" => FilterIsSubseq(ActiveAt(now), tokens);
    case "used" => FilterIsSubseq(IsUsed, tokens);
    case "expired" => FilterIsSubseq(ExpiredAt(now), tokens);
    case _ => IsSubseqRefl(tokens);
  }

  /** Exactly 24 hours after creation a token is not yet expired; one millisecond later it is, and it stays expired. */
  lemma ExpiryBoundary(createdAt: int, now: int, later: int)
    ensures !IsExpired(createdAt, createdAt + DayMillis)
    ensures IsExpired(createdAt, createdAt + DayMillis + 1)
    ensures IsExpired(createdAt, now) && now <= later ==> IsExpired(createdAt, later)
  {
  }

  /**
   * The dashboard counters: active and expired tokens are disjoint, and so are
   * active and used ones, so each pair of counters sums to at most the total;
   * a used token older than 24 hours is counted both as used and as expired.
   */
  lemma {:induction false} StatusCounts(tokens: seq<Token>, now: int)
    ensures forall t :: t in ActiveTokens(tokens, now) ==> t !in ExpiredTokens(tokens, now) && t !in UsedTokens(tokens)
    ensures |ActiveTokens(tokens, now)| + |ExpiredTokens(tokens, now)| <= |tokens|
    ensures |ActiveTokens(tokens, now)| + |UsedTokens(tokens)| <= |tokens|
    ensures forall t :: t in tokens && t.status == "used" && IsExpired(t.createdAt, now) ==>
              t in UsedTokens(tokens) && t in ExpiredTokens(tokens, now)
  {
    FilterExclusiveCount(ActiveAt(now), ExpiredAt(now), tokens);
    FilterExclusiveCount(ActiveAt(now), IsUsed, tokens);
  }

  /**
   * The active and expired lists are built in two passes, each reading the
   * clock. With the readings `now1 <= now2`, a token lands in both lists exactly
   * when it is active and crosses the 24-hour mark between the two readings.
   */
  lemma TwoReadings(tokens: seq<Token>, t: Token, now1: int, now2: int)
    requires now1 <= now2
    ensures t in ActiveTokens(tokens, now1) && t in ExpiredTokens(tokens, now2) <==>
              t in tokens && t.status == "active" && now1 <= t.createdAt + DayMillis < now2
  {
  }
}
