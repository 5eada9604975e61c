/**
  `CachedRESTClient._cache_filter`: the decision, made for every response the
  HTTP cache sees, whether its decoded body may be stored permanently.

  The decoded body and the current local time are parameters: the first
  stands for `resp.json()`, the second for `datetime.today()`.
 */
module Cache {
  import opened Results
  import opened Json
  import opened Calendar
  import opened Strptime

  /** Why a `TypeError` is raised. */
  datatype TypeMismatch =
    | BodyNotSubscriptable    // the body is not an object, so `body['from']` fails
    | ArgumentNotString       // `strptime` is given a value that is not a string

  /** The exceptions a rule can raise besides `KeyError`. */
  datatype Raised =
    | TypeError(mismatch: TypeMismatch)
    | ValueError(reason: ParseError)

  /** What running one rule does: raise `KeyError`, return a verdict, or raise something else. */
  datatype Outcome =
    | KeyMissing
    | Decided(verdict: bool)
    | Failed(raised: Raised)

  /** One entry of the filter's rule list; it sees the body and the clock. */
  type Rule = (Json, DateTime) -> Outcome

  /**
    The `from` rule: the body's `from` field is read as a `%Y-%m-%d` date, and
    the body is cacheable iff that date is strictly before today's date.
   */
  function FromRule(body: Json, now: DateTime): (o: Outcome)
    ensures o.KeyMissing? <==> body.JObject? && "from" !in body.fields
    ensures o.Decided? <==>
      body.JObject? && "from" in body.fields && body.fields["from"].JString?
      && StrptimeDate(body.fields["from"].str).Ok?
    ensures o.Decided? ==> o.verdict == Before(StrptimeDate(body.fields["from"].str).value, now.date)
  {
    match body
    case JObject(fields) =>
      if "from" !in fields then KeyMissing
      else
        (match fields["from"]
        case JString(text) =>
          (match StrptimeDate(text)
           case Ok(from) => Decided(Before(from, now.date))
           case Err(e) => Failed(ValueError(e)))
        case _ => Failed(TypeError(ArgumentNotString)))
    case _ => Failed(TypeError(BodyNotSubscriptable))
  }

  /** The filter's rule list, in order. */
  function CacheRules(): (rules: seq<Rule>)
    // the list falls through to the default exactly when the body is an object without `from`
    ensures forall body, now :: AllKeyMissing(rules, body, now) <==> body.JObject? && "from" !in body.fields
  {
    var rules: seq<Rule> := [FromRule];
    assert forall body, now :: AllKeyMissing(rules, body, now) <==> rules[0](body, now).KeyMissing?;
    rules
  }

  /** The value a rule's outcome makes the filter return, when it is not `KeyError`. */
  function Settle(o: Outcome): Result<bool, Raised>
    requires !o.KeyMissing?
  {
    match o
    case Decided(b) => Ok(b)
    case Failed(e) => Err(e)
  }

  /** Every rule in `rules` raises `KeyError` on this body. */
  predicate AllKeyMissing(rules: seq<Rule>, body: Json, now: DateTime) {
    forall i :: 0 <= i < |rules| ==> rules[i](body, now).KeyMissing?
  }

  /** Rule `k` is the first one that does not raise `KeyError`. */
  predicate FirstApplicable(rules: seq<Rule>, body: Json, now: DateTime, k: int) {
    && 0 <= k < |rules|
    && !rules[k](body, now).KeyMissing?
    && AllKeyMissing(rules[..k], body, now)
  }

  /**
    The `for`/`try` loop over the rules: each rule is run in turn; `KeyError`
    moves on to the next rule, anything else ends the loop with that outcome;
    when no rule is left the answer is `False`.
   */
  function RunRules(rules: seq<Rule>, body: Json, now: DateTime): (r: Result<bool, Raised>)
    ensures AllKeyMissing(rules, body, now) ==> r == Ok(false)
    ensures forall k :: FirstApplicable(rules, body, now, k) ==> r == Settle(rules[k](body, now))
  {
    if |rules| == 0 then Ok(false)
    else
      var o := rules[0](body, now);
      if o.KeyMissing? then
        assert forall k :: FirstApplicable(rules, body, now, k) ==> k > 0 && FirstApplicable(rules[1..], body, now, k - 1) by {
          forall k | FirstApplicable(rules, body, now, k)
            ensures k > 0 && FirstApplicable(rules[1..], body, now, k - 1)
          {
            assert rules[1..][..k - 1] == rules[..k][1..];
          }
        }
        RunRules(rules[1..], body, now)
      else
        assert forall k :: 0 < k <= |rules| ==> !AllKeyMissing(rules[..k], body, now) by {
          forall k | 0 < k <= |rules| ensures !AllKeyMissing(rules[..k], body, now) {
            assert rules[..k][0] == rules[0];
          }
        }
        Settle(o)
  }

  /** `_cache_filter(resp)` for a response whose decoded body is `body`, at local time `now`. */
  function CacheFilter(body: Json, now: DateTime): (r: Result<bool, Raised>)
    // no `from` key: the `KeyError` is swallowed and the default applies
    ensures body.JObject? && "from" !in body.fields ==> r == Ok(false)
    // a parseable `from`: cacheable iff strictly before today
    ensures body.JObject? && "from" in body.fields && body.fields["from"].JString?
            && StrptimeDate(body.fields["from"].str).Ok? ==>
              r == Ok(Before(StrptimeDate(body.fields["from"].str).value, now.date))
    // a malformed `from` string surfaces strptime's ValueError
    ensures body.JObject? && "from" in body.fields && body.fields["from"].JString?
            && StrptimeDate(body.fields["from"].str).Err? ==>
              r == Err(ValueError(StrptimeDate(body.fields["from"].str).error))
    // a `from` that is not a string, or a body that is not an object, raises TypeError
    ensures body.JObject? && "from" in body.fields && !body.fields["from"].JString? ==>
              r == Err(TypeError(ArgumentNotString))
    ensures !body.JObject? ==> r == Err(TypeError(BodyNotSubscriptable))
  {
    var rules := CacheRules();
    assert rules[..0] == [];
    assert !FromRule(body, now).KeyMissing? ==> FirstApplicable(rules, body, now, 0);
    RunRules(rules, body, now)
  }

  // ----- The rule chain

  /** Once a rule has not raised `KeyError`, the rules after it are never consulted. */
  lemma {:induction false} LaterRulesIgnored(rules: seq<Rule>, later: seq<Rule>, body: Json, now: DateTime)
    requires !AllKeyMissing(rules, body, now)
    ensures RunRules(rules + later, body, now) == RunRules(rules, body, now)
  {
    assert (rules + later)[0] == rules[0];
    if rules[0](body, now).KeyMissing? {
      assert (rules + later)[1..] == rules[1..] + later;
      assert !AllKeyMissing(rules[1..], body, now) by {
        var i :| 0 <= i < |rules| && !rules[i](body, now).KeyMissing?;
        assert rules[1..][i - 1] == rules[i];
      }
      LaterRulesIgnored(rules[1..], later, body, now);
    }
  }

  /** Rules that all raise `KeyError` hand the decision on to the rules after them. */
  lemma {:induction false} KeyMissingRulesSkipped(rules: seq<Rule>, later: seq<Rule>, body: Json, now: DateTime)
    requires AllKeyMissing(rules, body, now)
    ensures RunRules(rules + later, body, now) == RunRules(later, body, now)
  {
    if |rules| > 0 {
      assert (rules + later)[0] == rules[0];
      assert (rules + later)[1..] == rules[1..] + later;
      assert AllKeyMissing(rules[1..], body, now) by {
        forall i | 0 <= i < |rules| - 1 ensures rules[1..][i](body, now).KeyMissing? {
          assert rules[1..][i] == rules[i + 1];
        }
      }
      KeyMissingRulesSkipped(rules[1..], later, body, now);
    } else {
      assert rules + later == later;
    }
  }

  // ----- The filter's verdict

  /**
    A body is cached exactly when its `from` field is a string spelling, in the
    `%Y-%m-%d` format, a valid date strictly before today's date.
   */
  lemma CacheableIffSpelledBeforeToday(body: Json, now: DateTime)
    ensures CacheFilter(body, now) == Ok(true) <==>
      && body.JObject? && "from" in body.fields && body.fields["from"].JString?
      && exists date :: && ValidDate(date)
                        && Spells(body.fields["from"].str, date.year, date.month, date.day)
                        && Before(date, now.date)
  {
    if body.JObject? && "from" in body.fields && body.fields["from"].JString? {
      var text := body.fields["from"].str;
      if CacheFilter(body, now) == Ok(true) {
        var date := StrptimeDate(text).value;
        StrptimeIffSpells(text, date);
      }
      forall date | ValidDate(date) && Spells(text, date.year, date.month, date.day) && Before(date, now.date)
        ensures CacheFilter(body, now) == Ok(true)
      {
        StrptimeIffSpells(text, date);
      }
    }
  }

  /** The filter raises nothing but what the `from` rule raises: only a present, malformed `from` fails. */
  lemma FailsIffFromMalformed(body: Json, now: DateTime)
    ensures CacheFilter(body, now).Err? <==>
      !body.JObject? ||
      ("from" in body.fields &&
        (!body.fields["from"].JString? || StrptimeDate(body.fields["from"].str).Err?))
  {
  }

  /** Only the calendar date of the clock matters, never the time of day. */
  lemma TimeOfDayIrrelevant(body: Json, now1: DateTime, now2: DateTime)
    requires now1.date == now2.date
    ensures CacheFilter(body, now1) == CacheFilter(body, now2)
  {
  }

  /** A body cacheable on some day stays cacheable on every later day. */
  lemma CacheableStaysCacheable(body: Json, now1: DateTime, now2: DateTime)
    requires CacheFilter(body, now1) == Ok(true)
    requires !Before(now2.date, now1.date)
    ensures CacheFilter(body, now2) == Ok(true)
  {
    var from := StrptimeDate(body.fields["from"].str).value;
    BeforeStrictTotalOrder(from, now1.date, now2.date);
  }

  /** Whether the filter fails does not depend on the clock at all. */
  lemma FailureIndependentOfClock(body: Json, now1: DateTime, now2: DateTime)
    requires CacheFilter(body, now1).Err?
    ensures CacheFilter(body, now2) == CacheFilter(body, now1)
  {
  }

  // ----- The cases of test_cache_filter_from: on 2020-01-17, whatever the time

  lemma FromTwoDaysAgoCached(now: DateTime)
    requires now.date == Date(2020, 1, 17)
    ensures CacheFilter(JObject(map["from" := JString("2020-01-15")]), now) == Ok(true)
  {
    IsoFormatRoundTrip(Date(2020, 1, 15));
  }

  lemma FromTodayNotCached(now: DateTime)
    requires now.date == Date(2020, 1, 17)
    ensures CacheFilter(JObject(map["from" := JString("2020-01-17")]), now) == Ok(false)
  {
    IsoFormatRoundTrip(Date(2020, 1, 17));
  }

  lemma FromFutureNotCached(now: DateTime)
    requires now.date == Date(2020, 1, 17)
    ensures CacheFilter(JObject(map["from" := JString("2020-01-30")]), now) == Ok(false)
  {
    IsoFormatRoundTrip(Date(2020, 1, 30));
  }

  /** An impossible calendar date in `from` is an error, not a fall-through to `False`. */
  lemma ImpossibleFromFails(now: DateTime)
    ensures CacheFilter(JObject(map["from" := JString("2020-02-30")]), now) == Err(ValueError(DayOutOfRange))
  {
    ImpossibleDayRefused(2020, 2, 30);
  }

  /** A body with only a `results` field is not cached: the `KeyError` is swallowed. */
  lemma NoFromNotCached(now: DateTime, results: seq<Json>)
    ensures CacheFilter(JObject(map["results" := JArray(results)]), now) == Ok(false)
  {
  }
}
