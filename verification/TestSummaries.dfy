/** Counts reported by one channel test, and by a whole cycle of them. */
module TestSummaries {
  import opened ChannelStatus

  datatype Summary = Summary(tested: int, succeeded: int, failed: int, disabled: int, enabled: int)

  const ZERO := Summary(0, 0, 0, 0, 0)

  function Plus(a: Summary, b: Summary): Summary {
    Summary(a.tested + b.tested, a.succeeded + b.succeeded, a.failed + b.failed,
            a.disabled + b.disabled, a.enabled + b.enabled)
  }

  datatype Counter = Tested | Succeeded | Failed | Disabled | Enabled

  function Field(s: Summary, c: Counter): int {
    match c
    case Tested => s.tested
    case Succeeded => s.succeeded
    case Failed => s.failed
    case Disabled => s.disabled
    case Enabled => s.enabled
  }

  /** Every test either succeeds or fails; only failures disable and only successes re-enable. */
  predicate Consistent(s: Summary) {
    && s.tested == s.succeeded + s.failed
    && 0 <= s.disabled <= s.failed
    && 0 <= s.enabled <= s.succeeded
  }

  /** What one probe of a channel reported to the health check. */
  datatype Probe = Probe(
    cancelled: bool,
    apiError: bool,
    bannable: bool,
    localError: bool,
    milliseconds: int)

  /** `testChannelForHealthCheck`: the counters, as incremented. */
  method HealthCheck(probe: Probe, status: int, autoBan: bool, allowDisable: bool, threshold: int,
                     automaticDisable: bool, automaticEnable: bool) returns (summary: Summary)
    ensures Consistent(summary)
    ensures probe.cancelled ==> summary == ZERO
    ensures !probe.cancelled ==> summary.tested == 1 && summary.disabled + summary.enabled <= 1
    ensures !probe.cancelled ==>
              (summary.failed == 1 <==>
               probe.apiError || (automaticDisable && probe.milliseconds > threshold))
    ensures summary.disabled == 1 <==>
            && !probe.cancelled && allowDisable && automaticDisable && autoBan && status == ENABLED
            && ((probe.apiError && probe.bannable) || probe.milliseconds > threshold)
    ensures summary.enabled == 1 <==>
            && !probe.cancelled && automaticEnable && status == AUTO_DISABLED && !probe.localError
            && summary.failed == 0
  {
    summary := ZERO;
    if probe.cancelled {
      return;
    }
    summary := summary.(tested := summary.tested + 1);
    var failed := probe.apiError;
    var shouldBan := automaticDisable && probe.apiError && probe.bannable;
    if automaticDisable && !shouldBan {
      if probe.milliseconds > threshold {
        failed := true;
        shouldBan := true;
      }
    }
    if !failed {
      summary := summary.(succeeded := summary.succeeded + 1);
    } else {
      summary := summary.(failed := summary.failed + 1);
    }
    if allowDisable && status == ENABLED && shouldBan && autoBan {
      summary := summary.(disabled := summary.disabled + 1);
    }
    if !probe.localError && status != ENABLED && automaticEnable && !failed && status == AUTO_DISABLED {
      summary := summary.(enabled := summary.enabled + 1);
    }
  }
}
