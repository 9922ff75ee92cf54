/** What both generations of the engine write in the same way, and which frames
    both leave unanswered: the streams listing, the periodic report
    notifications, and the way the parts of a reply frame add up. */
module Replies {
  import opened Helpers
  import opened HelpersCpp
  import opened Wrappers
  import opened HexCodec
  import opened Wire

  /** The digit the streams reply writes for an id: '0' + id up to 9, 'A' + id - 10 above. */
  function StreamDigit(id: nat): (d: char)
    requires 1 <= id <= 15
    ensures d == ToHex(id) && DecodeHexit(d) == id
  {
    if id <= 9 then ('0' as int + id) as char
    else
      assert ('A' as int + id - 10) % 256 == 'A' as int + id - 10;
      ('A' as int + id - 10) as char
  }

  /** The ids of the registered streams among the first k slots, ascending. */
  function RegisteredBelow<T>(streams: seq<Option<T>>, k: nat): (ids: seq<nat>)
    requires k <= |streams|
    ensures forall j :: 0 <= j < |ids| ==> 1 <= ids[j] <= k
  {
    if k == 0 then []
    else RegisteredBelow(streams, k - 1) + (if streams[k - 1].Some? then [k] else [])
  }

  /** RegisteredBelow holds exactly the registered ids up to k, each once, ascending. */
  lemma {:induction false} RegisteredExact<T>(streams: seq<Option<T>>, k: nat)
    requires k <= |streams|
    ensures forall j :: 0 <= j < |RegisteredBelow(streams, k)| ==> streams[RegisteredBelow(streams, k)[j] - 1].Some?
    ensures forall x :: 1 <= x <= k && streams[x - 1].Some? ==> x in RegisteredBelow(streams, k)
    ensures forall a, b :: 0 <= a < b < |RegisteredBelow(streams, k)| ==>
              RegisteredBelow(streams, k)[a] < RegisteredBelow(streams, k)[b]
  {
    if k > 0 {
      var init := RegisteredBelow(streams, k - 1);
      RegisteredExact(streams, k - 1);
      var ids := RegisteredBelow(streams, k);
      assert ids == init + (if streams[k - 1].Some? then [k] else []);
      forall a, b | 0 <= a < b < |ids|
        ensures ids[a] < ids[b]
      {
        assert ids[a] == init[a];
      }
      forall x | 1 <= x <= k && streams[x - 1].Some?
        ensures x in ids
      {
        if x == k {
          assert ids[|ids| - 1] == k;
        } else {
          assert x in init;
        }
      }
    }
  }

  /** Ids as the streams reply lists them: digits separated by single spaces. */
  function Listing(ids: seq<nat>): seq<Out>
    requires forall k :: 0 <= k < |ids| ==> 1 <= ids[k] <= 15
  {
    if ids == [] then []
    else Listing(ids[..|ids| - 1]) + (if |ids| > 1 then [Ch(' ')] else []) + [Ch(StreamDigit(ids[|ids| - 1]))]
  }

  /** Listing one more id appends a separating space, when something is already
      listed, and the id's digit. */
  lemma {:induction false} ListingSnoc(ids: seq<nat>, id: nat)
    requires forall k :: 0 <= k < |ids| ==> 1 <= ids[k] <= 15
    requires 1 <= id <= 15
    ensures Listing(ids + [id]) == Listing(ids) + (if ids == [] then [Ch(StreamDigit(id))] else [Ch(' '), Ch(StreamDigit(id))])
  {
    assert (ids + [id])[..|ids|] == ids;
  }

  /** What the streams reply writes for slot id - 1: nothing when it is empty,
      otherwise a space when an id was already listed, then the id's digit. */
  lemma {:induction false} ListingStep<T>(start: seq<Out>, streams: seq<Option<T>>, id: nat)
    requires 1 <= id <= |streams| <= 15
    ensures streams[id - 1].None? ==> RegisteredBelow(streams, id) == RegisteredBelow(streams, id - 1)
    ensures streams[id - 1].Some? ==> RegisteredBelow(streams, id) != []
    ensures streams[id - 1].Some? && RegisteredBelow(streams, id - 1) == [] ==>
              start + Listing(RegisteredBelow(streams, id))
              == start + Listing(RegisteredBelow(streams, id - 1)) + [Ch(StreamDigit(id))]
    ensures streams[id - 1].Some? && RegisteredBelow(streams, id - 1) != [] ==>
              start + Listing(RegisteredBelow(streams, id))
              == start + Listing(RegisteredBelow(streams, id - 1)) + [Ch(' ')] + [Ch(StreamDigit(id))]
  {
    var ids := RegisteredBelow(streams, id - 1);
    if streams[id - 1].Some? {
      assert RegisteredBelow(streams, id) == ids + [id];
      ListingSnoc(ids, id);
    } else {
      assert RegisteredBelow(streams, id) == ids + [];
    }
  }

  /** The listing is empty exactly when there is nothing to list. */
  lemma {:induction false} ListingEmpty(ids: seq<nat>)
    requires forall k :: 0 <= k < |ids| ==> 1 <= ids[k] <= 15
    ensures Listing(ids) == [] <==> ids == []
  {
  }

  /** The listing has one hex digit per id, in the given order, with a single space
      between neighbours and nothing else. */
  lemma {:induction false} ListingLayout(ids: seq<nat>)
    requires forall k :: 0 <= k < |ids| ==> 1 <= ids[k] <= 15
    ensures |Listing(ids)| == if ids == [] then 0 else 2 * |ids| - 1
    ensures forall k :: 0 <= k < |ids| ==> Listing(ids)[2 * k] == Ch(StreamDigit(ids[k]))
    ensures forall k :: 0 <= k < |ids| - 1 ==> Listing(ids)[2 * k + 1] == Ch(' ')
  {
    if ids != [] {
      var init := ids[..|ids| - 1];
      ListingLayout(init);
      forall k | 0 <= k < |ids|
        ensures Listing(ids)[2 * k] == Ch(StreamDigit(ids[k]))
      {
        if k < |init| {
          assert Listing(ids)[2 * k] == Listing(init)[2 * k];
        }
      }
      forall k | 0 <= k < |ids| - 1
        ensures Listing(ids)[2 * k + 1] == Ch(' ')
      {
        if k < |init| - 1 {
          assert Listing(ids)[2 * k + 1] == Listing(init)[2 * k + 1];
        }
      }
    }
  }

  /** The bit numbers below k; Below(15) is what 0x7FFF selects when report names no stream. */
  function Below(k: nat): (s: set<nat>)
    ensures forall i :: i in s <==> 0 <= i < k
  {
    var ids: seq<nat> := seq(k, j requires 0 <= j < k => j);
    forall i | 0 <= i < k
      ensures i in ids
    {
      assert ids[i] == i;
    }
    forall i | i in ids
      ensures i < k
    {
      var j :| 0 <= j < |ids| && ids[j] == i;
    }
    set i | i in ids
  }

  /** A frame is dropped without a word when it is shorter than 2 bytes, when its
      first byte is not a hex digit, or when it is a binary frame for stream 0 or
      one whose body does not decode. */
  predicate Dropped(frame: seq<byte>) {
    || |frame| < 2
    || !IsHexit(frame[0])
    || (|frame| >= 3 && frame[2] == '#' && (DecodeHexit(frame[0]) == 0 || DecodeHex(frame[3..]).None?))
  }

  /** What the control channel writes for an error code: `error:` and the number. */
  function ErrorCode(err: nat): seq<Out> {
    if err == 0 then [] else [Text("error:"), Dec(err)]
  }

  /** The bits of the mask below k whose stream is ready to report. */
  function DueBelow(mask: set<nat>, ready: set<nat>, k: nat): (bits: seq<nat>)
    ensures forall j :: 0 <= j < |bits| ==> bits[j] < k
  {
    if k == 0 then []
    else DueBelow(mask, ready, k - 1) + (if k - 1 in mask && k - 1 in ready then [k - 1] else [])
  }

  /** DueBelow holds exactly the masked, ready bits below k, each once, ascending. */
  lemma {:induction false} DueBelowExact(mask: set<nat>, ready: set<nat>, k: nat)
    ensures forall j :: 0 <= j < |DueBelow(mask, ready, k)| ==>
              DueBelow(mask, ready, k)[j] in mask && DueBelow(mask, ready, k)[j] in ready
    ensures forall b :: 0 <= b < k && b in mask && b in ready ==> b in DueBelow(mask, ready, k)
    ensures forall a, b :: 0 <= a < b < |DueBelow(mask, ready, k)| ==>
              DueBelow(mask, ready, k)[a] < DueBelow(mask, ready, k)[b]
  {
    if k > 0 {
      DueBelowExact(mask, ready, k - 1);
      var prev := DueBelow(mask, ready, k - 1);
      var bits := DueBelow(mask, ready, k);
      if k - 1 in mask && k - 1 in ready {
        assert bits == prev + [k - 1];
        assert bits[|prev|] == k - 1;
      } else {
        assert bits == prev;
      }
    }
  }

  /** The notification a report writes for bit b, that is stream b + 1. */
  function Notice(b: nat): (o: seq<Out>)
    requires b < 15
    ensures |o| == 6
  {
    NotificationHeader(b + 1) + [Text("report "), Reported(b + 1)] + FrameEnd()
  }

  /** The notifications for a run of bits, in order. */
  function Notices(bits: seq<nat>): (o: seq<Out>)
    requires forall j :: 0 <= j < |bits| ==> bits[j] < 15
    ensures |o| == 6 * |bits|
  {
    if bits == [] then [] else Notices(bits[..|bits| - 1]) + Notice(bits[|bits| - 1])
  }

  /** Notification j of a run sits at offset 6 * j. */
  lemma {:induction false} NoticesLayout(bits: seq<nat>)
    requires forall j :: 0 <= j < |bits| ==> bits[j] < 15
    ensures var o := Notices(bits);
            forall j :: 0 <= j < |bits| ==> o[6 * j..6 * j + 6] == Notice(bits[j])
  {
    if bits != [] {
      var init := bits[..|bits| - 1];
      NoticesLayout(init);
      var o := Notices(bits);
      assert o == Notices(init) + Notice(bits[|bits| - 1]);
      forall j | 0 <= j < |bits|
        ensures o[6 * j..6 * j + 6] == Notice(bits[j])
      {
        if j < |init| {
          assert o[6 * j..6 * j + 6] == Notices(init)[6 * j..6 * j + 6];
        }
      }
    }
  }

  /** The notifications written up to bit i + 1: those up to bit i, then bit i's
      when it is masked and ready. */
  lemma {:induction false} NoticesStep(start: seq<Out>, mask: set<nat>, ready: set<nat>, i: nat)
    requires i < 15
    ensures i in mask && i in ready ==>
              start + Notices(DueBelow(mask, ready, i + 1)) == start + Notices(DueBelow(mask, ready, i)) + Notice(i)
    ensures !(i in mask && i in ready) ==> DueBelow(mask, ready, i + 1) == DueBelow(mask, ready, i)
  {
    var due := DueBelow(mask, ready, i);
    if i in mask && i in ready {
      assert DueBelow(mask, ready, i + 1) == due + [i];
      NoticesSnoc(due, i);
    } else {
      assert DueBelow(mask, ready, i + 1) == due + [];
    }
  }

  /** One more bit appends its notification. */
  lemma {:induction false} NoticesSnoc(bits: seq<nat>, b: nat)
    requires forall j :: 0 <= j < |bits| ==> bits[j] < 15
    requires b < 15
    ensures Notices(bits + [b]) == Notices(bits) + Notice(b)
  {
    assert (bits + [b])[..|bits|] == bits;
  }

  /** The first byte of a + b and what follows it, for a non-empty a. */
  lemma {:induction false} ConsTail(a: seq<byte>, b: seq<byte>)
    requires a != []
    ensures (a + b)[0] == a[0] && (a + b)[1..] == a[1..] + b
  {
  }

  /** Writing two parts one after the other appends both. */
  lemma {:induction false} Appended(start: seq<Out>, a: seq<Out>, b: seq<Out>)
    ensures start + a + b == start + (a + b)
  {
  }

  /** Writing three parts one after the other appends all three. */
  lemma {:induction false} Appended3(start: seq<Out>, a: seq<Out>, b: seq<Out>, c: seq<Out>)
    ensures start + a + b + c == start + (a + b + c)
  {
  }

  /** Writing the parts of a frame one after another appends the whole frame. */
  lemma {:induction false} FrameLayout(start: seq<Out>, header: seq<Out>, body: seq<Out>, code: seq<Out>, end: seq<Out>, written: seq<Out>)
    requires written == start + header + body + code + end
    ensures written == start + (header + body + code + end)
  {
  }
}
