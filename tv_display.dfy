/**
 * The TV queue display: the number currently served, the upcoming patients,
 * the spoken form of a queue number and the rule deciding when a number is
 * announced.
 */
module TvDisplay {
  import opened Wrappers
  import opened Seqs
  import opened JsStrings
  import opened Tickets
  import QueueNumber

  /** What every '0' is spoken as. */
  const Zero: string := " zero "

  predicate IsUpper(c: char) {
    'A' <= c <= 'Z'
  }

  /** `s.replace(/0/g, " zero ")`: every '0' replaced, nothing else changed. */
  function ReplaceZeros(s: string): string {
    if s == [] then [] else (if s[0] == '0' then Zero else [s[0]]) + ReplaceZeros(s[1..])
  }

  /** The replacement leaves no '0', and every character it yields comes from the input or from " zero ". */
  lemma {:induction false} ReplaceZerosChars(s: string)
    ensures '0' !in ReplaceZeros(s)
    ensures forall c | c in ReplaceZeros(s) :: c in s || c in Zero
  {
    if s != [] {
      ReplaceZerosChars(s[1..]);
      assert '0' !in Zero;
      assert forall c | c in s[1..] :: c in s;
    }
  }

  /** The position of the first letter A-Z. */
  function FirstUpper(s: string): (r: Option<nat>)
    ensures r.Some? ==> r.value < |s| && IsUpper(s[r.value])
    ensures r.Some? ==> forall j | 0 <= j < r.value :: !IsUpper(s[j])
    ensures r.None? <==> forall j | 0 <= j < |s| :: !IsUpper(s[j])
  {
    if s == [] then None
    else if IsUpper(s[0]) then Some(0)
    else match FirstUpper(s[1..])
      case None => None
      case Some(i) => Some(i + 1)
  }

  /** `s.replace(/([A-Z])/, "$1 ")`: a space after the first letter A-Z only (the pattern has no `g` flag). */
  function SpaceAfterFirstCapital(s: string): string {
    if s == [] then []
    else if IsUpper(s[0]) then [s[0], ' '] + s[1..]
    else [s[0]] + SpaceAfterFirstCapital(s[1..])
  }

  /** The space goes right after the first capital, and the rest is left alone. */
  lemma {:induction false} SpaceAfterFirstCapitalAt(s: string)
    ensures FirstUpper(s).None? ==> SpaceAfterFirstCapital(s) == s
    ensures FirstUpper(s).Some? ==>
              var i := FirstUpper(s).value;
              SpaceAfterFirstCapital(s) == s[..i + 1] + " " + s[i + 1..]
  {
    if s != [] && !IsUpper(s[0]) {
      SpaceAfterFirstCapitalAt(s[1..]);
      match FirstUpper(s[1..])
      case None =>
      case Some(i) =>
        assert s[1..][..i + 1] == s[1..i + 2];
        assert s[1..][i + 1..] == s[i + 2..];
        assert [s[0]] + s[1..i + 2] == s[..i + 2];
    }
  }

  /** `formatQueueNumber`: zeros spelled out, then a space after the first capital. */
  function FormatQueueNumber(queueNumber: string): string {
    SpaceAfterFirstCapital(ReplaceZeros(queueNumber))
  }

  /** Undoes `ReplaceZeros` on strings without spaces. */
  function RestoreZeros(t: string): string
    decreases |t|
  {
    if |t| >= |Zero| && t[..|Zero|] == Zero then "0" + RestoreZeros(t[|Zero|..])
    else if t == [] then []
    else [t[0]] + RestoreZeros(t[1..])
  }

  /** Undoes `SpaceAfterFirstCapital`. */
  function RemoveSpaceAfterFirstCapital(t: string): string {
    if t == [] then []
    else if IsUpper(t[0]) then (if |t| > 1 && t[1] == ' ' then [t[0]] + t[2..] else t)
    else [t[0]] + RemoveSpaceAfterFirstCapital(t[1..])
  }

  /** The spoken form read back as a queue number. */
  function UnformatQueueNumber(t: string): string {
    RestoreZeros(RemoveSpaceAfterFirstCapital(t))
  }

  lemma {:induction false} ZerosRoundTrip(s: string)
    requires ' ' !in s
    ensures RestoreZeros(ReplaceZeros(s)) == s
  {
    if s != [] {
      var rest := ReplaceZeros(s[1..]);
      assert ' ' !in s[1..] by {
        forall c | c in s[1..] ensures c != ' ' { assert c in s; }
      }
      ZerosRoundTrip(s[1..]);
      if s[0] == '0' {
        var t := Zero + rest;
        assert t[..|Zero|] == Zero && t[|Zero|..] == rest;
        assert "0" + s[1..] == s;
      } else {
        var t := [s[0]] + rest;
        assert t[0] != Zero[0];
        assert t[1..] == rest;
        assert [s[0]] + s[1..] == s;
      }
    }
  }

  lemma {:induction false} SpaceRoundTrip(s: string)
    ensures RemoveSpaceAfterFirstCapital(SpaceAfterFirstCapital(s)) == s
  {
    if s != [] {
      if IsUpper(s[0]) {
        var t := [s[0], ' '] + s[1..];
        assert t[2..] == s[1..];
        assert [s[0]] + s[1..] == s;
      } else {
        SpaceRoundTrip(s[1..]);
        var t := [s[0]] + SpaceAfterFirstCapital(s[1..]);
        assert t[1..] == SpaceAfterFirstCapital(s[1..]);
        assert [s[0]] + s[1..] == s;
      }
    }
  }

  /** A queue number without spaces is recovered from its spoken form: the formatting loses nothing. */
  lemma FormatRoundTrip(queueNumber: string)
    requires ' ' !in queueNumber
    ensures UnformatQueueNumber(FormatQueueNumber(queueNumber)) == queueNumber
  {
    SpaceRoundTrip(ReplaceZeros(queueNumber));
    ZerosRoundTrip(queueNumber);
  }

  /** Every issued number S5-NN is recovered from its spoken form. */
  lemma NumberedRoundTrip(k: nat)
    ensures UnformatQueueNumber(FormatQueueNumber(QueueNumber.Numbered(k))) == QueueNumber.Numbered(k)
  {
    var ds := NatToString(k);
    var p := PadStart(ds, 2, '0');
    var s := QueueNumber.Numbered(k);
    assert s == QueueNumber.Prefix + p;
    forall i | 0 <= i < |s| ensures s[i] != ' ' {
      if i < |QueueNumber.Prefix| {
        assert s[i] == QueueNumber.Prefix[i];
      } else if i - |QueueNumber.Prefix| >= |p| - |ds| {
        assert s[i] == ds[i - |QueueNumber.Prefix| - (|p| - |ds|)];
      }
    }
    FormatRoundTrip(s);
  }

  /** The spoken form has no '0' left. */
  lemma FormatHasNoZero(queueNumber: string)
    ensures '0' !in FormatQueueNumber(queueNumber)
  {
    var z := ReplaceZeros(queueNumber);
    ReplaceZerosChars(queueNumber);
    SpaceAfterFirstCapitalAt(z);
    if FirstUpper(z).Some? {
      var i := FirstUpper(z).value;
      assert forall c | c in z[..i + 1] :: c in z;
      assert forall c | c in z[i + 1..] :: c in z;
    }
  }

  lemma {:induction false} ReplaceZerosNoZero(s: string)
    requires '0' !in s
    ensures ReplaceZeros(s) == s
  {
    if s != [] {
      assert '0' !in s[1..] by {
        forall c | c in s[1..] ensures c != '0' { assert c in s; }
      }
      ReplaceZerosNoZero(s[1..]);
      assert [s[0]] + s[1..] == s;
    }
  }

  /** A number with no '0' and no capital is spoken as it is written. */
  lemma FormatUnchanged(queueNumber: string)
    requires '0' !in queueNumber && forall j | 0 <= j < |queueNumber| :: !IsUpper(queueNumber[j])
    ensures FormatQueueNumber(queueNumber) == queueNumber
  {
    ReplaceZerosNoZero(queueNumber);
    SpaceAfterFirstCapitalAt(queueNumber);
  }

  /** The characters of `s` other than '0', in order. */
  function NonZeros(s: string): string {
    if s == [] then [] else (if s[0] == '0' then [] else [s[0]]) + NonZeros(s[1..])
  }

  lemma {:induction false} NonZerosInReplaced(s: string)
    ensures IsSubseq(NonZeros(s), ReplaceZeros(s))
  {
    if s != [] {
      NonZerosInReplaced(s[1..]);
      if s[0] == '0' {
        assert NonZeros(s) == [] + NonZeros(s[1..]) == NonZeros(s[1..]);
        SubseqOfLonger(NonZeros(s[1..]), Zero, ReplaceZeros(s[1..]));
      } else {
        SubseqCons(s[0], NonZeros(s[1..]), ReplaceZeros(s[1..]));
      }
    }
  }

  /** Inserting the space keeps every subsequence. */
  lemma {:induction false} SubseqOfSpaced(a: string, x: string)
    requires IsSubseq(a, x)
    ensures IsSubseq(a, SpaceAfterFirstCapital(x))
    decreases |x|
  {
    if a != [] && x != [] {
      var y := SpaceAfterFirstCapital(x);
      if IsUpper(x[0]) {
        if a[0] == x[0] && IsSubseq(a[1..], x[1..]) {
          SubseqOfLonger(a[1..], [' '], x[1..]);
          assert y[0] == a[0] && y[1..] == [' '] + x[1..];
        } else {
          SubseqOfLonger(a, [x[0], ' '], x[1..]);
        }
      } else {
        var rest := SpaceAfterFirstCapital(x[1..]);
        assert y[0] == x[0] && y[1..] == rest;
        if a[0] == x[0] && IsSubseq(a[1..], x[1..]) {
          SubseqOfSpaced(a[1..], x[1..]);
        } else {
          SubseqOfSpaced(a, x[1..]);
        }
      }
    }
  }

  /** The characters other than '0' appear in the spoken form in their original order. */
  lemma FormatKeepsOrder(queueNumber: string)
    ensures IsSubseq(NonZeros(queueNumber), FormatQueueNumber(queueNumber))
  {
    NonZerosInReplaced(queueNumber);
    SubseqOfSpaced(NonZeros(queueNumber), ReplaceZeros(queueNumber));
  }

  /** What the screen shows: the patient being served, if any, and those waiting. */
  datatype Screen = Screen(serving: Option<Ticket>, upcoming: seq<Ticket>)

  /**
   * The announce condition `nextServing && nextServing.queueNumber !==
   * (currentServing?.queueNumber || null)`: an empty shown number counts as
   * none shown.
   */
  predicate ShouldAnnounce(next: Option<Ticket>, shown: Option<Ticket>) {
    next.Some? && (shown.None? || shown.value.queueNumber == [] || next.value.queueNumber != shown.value.queueNumber)
  }

  /**
   * The snapshot handler for the whole queue `patients` in timestamp order,
   * with `shown` the patient on screen: the new screen, and the sentence
   * spoken, if any.
   */
  function OnSnapshot(shown: Option<Ticket>, patients: seq<Ticket>): (Screen, Option<string>) {
    var next := Find(patients, BeingAttended);
    var announcement := if ShouldAnnounce(next, shown)
      then Some("Now serving " + FormatQueueNumber(next.value.queueNumber))
      else None;
    (Screen(next, WithStatus(patients, Waiting)), announcement)
  }

  /** Filtering keeps the timestamp order and takes its tickets in order. */
  lemma WithStatusOrder(q: seq<Ticket>, st: Status)
    ensures IsSubseq(WithStatus(q, st), q)
    ensures InTimestampOrder(q) ==> InTimestampOrder(WithStatus(q, st))
  {
    WithStatusSubseq(q, st);
    if InTimestampOrder(q) {
      WithStatusOrdered(q, st);
    }
  }

  /** The filter takes its tickets from `q` in their order. */
  lemma {:induction false} WithStatusSubseq(q: seq<Ticket>, st: Status)
    ensures IsSubseq(WithStatus(q, st), q)
  {
    if q != [] {
      var rest := WithStatus(q[1..], st);
      WithStatusSubseq(q[1..], st);
      assert [q[0]] + q[1..] == q;
      if q[0].status == st {
        SubseqCons(q[0], rest, q[1..]);
      } else {
        assert WithStatus(q, st) == [] + rest == rest;
        SubseqOfLonger(rest, [q[0]], q[1..]);
      }
    }
  }

  /** Filtering a queue in timestamp order leaves it in timestamp order. */
  lemma {:induction false} WithStatusOrdered(q: seq<Ticket>, st: Status)
    requires InTimestampOrder(q)
    ensures InTimestampOrder(WithStatus(q, st))
  {
    if q != [] {
      var rest := WithStatus(q[1..], st);
      OrderedTail(q);
      WithStatusOrdered(q[1..], st);
      if q[0].status == st {
        WithStatusMembers(q[1..], st);
        ConsOrdered(q[0], rest);
      } else {
        assert WithStatus(q, st) == [] + rest;
      }
    }
  }

  /**
   * The screen shows the earliest patient being attended (or none), and as
   * upcoming exactly the waiting patients, in timestamp order.
   */
  lemma ScreenContents(shown: Option<Ticket>, patients: seq<Ticket>)
    ensures var s := OnSnapshot(shown, patients).0;
            && (s.serving.None? <==> forall j | 0 <= j < |patients| :: patients[j].status != BeingAttended)
            && (s.serving.Some? ==> exists i | 0 <= i < |patients| :: patients[i] == s.serving.value
                                      && s.serving.value.status == BeingAttended
                                      && forall j | 0 <= j < i :: patients[j].status != BeingAttended)
            && (forall t :: t in s.upcoming <==> t in patients && t.status == Waiting)
            && IsSubseq(s.upcoming, patients)
            && (InTimestampOrder(patients) ==> InTimestampOrder(s.upcoming))
  {
    WithStatusMembers(patients, Waiting);
    WithStatusOrder(patients, Waiting);
  }

  /**
   * A number is announced exactly when someone is being served whose number
   * differs from the one shown (or nothing, or an empty number, is shown),
   * and then it is the spoken form of that number.
   */
  lemma AnnounceWhenChanged(shown: Option<Ticket>, patients: seq<Ticket>)
    ensures var r := OnSnapshot(shown, patients);
            && (r.1.Some? <==> r.0.serving.Some? && (shown.None? || shown.value.queueNumber == []
                                                 || r.0.serving.value.queueNumber != shown.value.queueNumber))
            && (r.1.Some? ==> r.1.value == "Now serving " + FormatQueueNumber(r.0.serving.value.queueNumber))
  {
  }

  /**
   * The same snapshot delivered again (the handler is re-subscribed whenever
   * the shown patient changes) announces nothing new, unless the number is empty.
   */
  lemma NoRepeatAnnouncement(shown: Option<Ticket>, patients: seq<Ticket>)
    ensures var screen := OnSnapshot(shown, patients).0;
            var again := OnSnapshot(screen.serving, patients);
            again.0 == screen
            && (again.1.Some? ==> screen.serving.Some? && screen.serving.value.queueNumber == [])
  {
  }

  /** The zeros of "S5-01" spelled out: "S5- zero 1". */
  lemma ReplaceZerosExample()
    ensures ReplaceZeros("S5-01") == "S5- zero 1"
  {
    assert ReplaceZeros("1") == "1";
    assert ReplaceZeros("01") == " zero 1";
    assert ReplaceZeros("-01") == "- zero 1";
    assert ReplaceZeros("5-01") == "5- zero 1";
  }

  /** "S5-01" is spoken as "S 5- zero 1". */
  lemma FormatExample()
    ensures FormatQueueNumber("S5-01") == "S 5- zero 1"
  {
    ReplaceZerosExample();
    assert IsUpper('S');
  }
}
