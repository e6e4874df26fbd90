/** The text that is hashed for a pre-registration, letter by letter. */
module PreregistrationText {
  import opened Wrappers
  import opened SortedEntries
  import opened CanonicalJson
  import opened Preregistration
  import D = Decimals

  /** The names of the fields in ascending order. */
  const NAMES :=
    [ "analysis_plan", "created_at", "hypothesis", "id", "locked",
      "measurement_window_days", "primary_metric", "primary_threshold", "stopping_rule", "vertical_title" ]

  /** What stands behind each name. */
  function ValueText(r: Record, i: nat): string
    requires i < 10
  {
    match i
    case 0 => Quote(r.plan.analysisPlan)
    case 1 => Quote(r.createdAt)
    case 2 => Quote(r.plan.hypothesis)
    case 3 => Quote(r.id)
    case 4 => if r.locked then "true" else "false"
    case 5 => IntText(r.plan.windowDays)
    case 6 => Quote(match r.plan.metric
                    case MonthlyRecurringRevenue => "monthly_recurring_revenue_usd"
                    case GrossMargin30d => "gross_margin_usd_30d"
                    case PaidConversions30d => "paid_conversions_30d")
    case 7 => Quote(D.Text(r.plan.threshold))
    case 8 => Quote(r.plan.stoppingRule)
    case 9 => Quote(r.plan.title)
  }

  function TextMembers(r: Record): (ms: seq<Entry<string>>)
    ensures |ms| == 10
  {
    seq(10, i requires 0 <= i < 10 => Entry(NAMES[i], ValueText(r, i)))
  }

  /** Which member of the record each member of the text is. */
  const TEXT_ORDER := [7, 1, 3, 0, 9, 6, 4, 5, 8, 2]

  lemma {:induction false} EncodedMember(ms: seq<Entry<Json>>, i: nat)
    requires i < |ms|
    ensures EncodeMembers(ms)[i] == Entry(ms[i].key, Encode(ms[i].val))
  {
    if i == 0 {
    } else {
      EncodedMember(ms[1..], i - 1);
    }
  }

  lemma TextMember(r: Record, i: nat)
    requires i < 10
    ensures |ContentMembers(r)| == 10 && TextMembers(r)[i] == EncodeMembers(ContentMembers(r))[TEXT_ORDER[i]]
  {
    EncodedMember(ContentMembers(r), TEXT_ORDER[i]);
    NameOf(r, i);
    ValueOf(r, i);
  }

  lemma NameOf(r: Record, i: nat)
    requires i < 10
    ensures |ContentMembers(r)| == 10 && ContentMembers(r)[TEXT_ORDER[i]].key == NAMES[i]
  {
  }

  lemma ValueOf(r: Record, i: nat)
    requires i < 10
    ensures |ContentMembers(r)| == 10 && Encode(ContentMembers(r)[TEXT_ORDER[i]].val) == ValueText(r, i)
  {
  }

  lemma Initials(i: nat)
    requires i < 10
    ensures NAMES[i] != [] && NAMES[i][0] == "achilmppsv"[i]
  {
  }

  lemma InitialDecides(a: string, b: string)
    requires a != [] && b != [] && a[0] < b[0]
    ensures Less(a, b)
  {
  }

  lemma NamesAscend(i: nat)
    requires i < 9
    ensures Less(NAMES[i], NAMES[i + 1])
  {
    if i == 6 {
      assert DifferFirst("primary_metric", "primary_threshold", 8);
      LessIsCodePointOrder("primary_metric", "primary_threshold");
    } else {
      Initials(i);
      Initials(i + 1);
      InitialDecides(NAMES[i], NAMES[i + 1]);
    }
  }

  predicate Plain(s: string) {
    forall i :: 0 <= i < |s| ==> s[i] != '\"' && s[i] != '\\' && s[i] as int >= 32
  }

  lemma PlainFirstNames(i: nat)
    requires i < 5
    ensures Plain(NAMES[i])
  {
  }

  lemma PlainLastNames(i: nat)
    requires 5 <= i < 10
    ensures Plain(NAMES[i])
  {
  }

  lemma PlainNames(i: nat)
    requires i < 10
    ensures Plain(NAMES[i])
  {
    if i < 5 {
      PlainFirstNames(i);
    } else {
      PlainLastNames(i);
    }
  }

  lemma TextKeysAscend(r: Record)
    ensures Increasing(TextMembers(r))
  {
    var tm := TextMembers(r);
    forall i | 0 <= i < 9 ensures Less(tm[i].key, tm[i + 1].key) {
      NamesAscend(i);
    }
    AdjacentIncreasing(tm);
  }

  lemma AdjacentIncreasing(ms: seq<Entry<string>>)
    requires forall i :: 0 <= i < |ms| - 1 ==> Less(ms[i].key, ms[i + 1].key)
    ensures Increasing(ms)
  {
    forall i, k | 0 <= i < k < |ms| ensures Less(ms[i].key, ms[k].key) {
      LessAlong(ms, i, k);
    }
  }

  lemma {:induction false} LessAlong(ms: seq<Entry<string>>, i: nat, k: nat)
    requires i < k < |ms| && forall j :: 0 <= j < |ms| - 1 ==> Less(ms[j].key, ms[j + 1].key)
    ensures Less(ms[i].key, ms[k].key)
  {
    if k == i + 1 {
    } else {
      LessAlong(ms, i, k - 1);
      LessTransitive(ms[i].key, ms[k - 1].key, ms[k].key);
    }
  }

  lemma EncodedDistinct(r: Record)
    ensures Distinct(EncodeMembers(ContentMembers(r)))
  {
    var ms := ContentMembers(r);
    ContentWellFormed(r);
    forall i, k | 0 <= i < k < |ms| ensures EncodeMembers(ms)[i].key != EncodeMembers(ms)[k].key {
      EncodedMember(ms, i);
      EncodedMember(ms, k);
    }
  }

  /** Where each member of the record stands in the text. */
  const TEXT_PLACES := [3, 1, 9, 2, 6, 7, 5, 0, 8, 4]

  lemma SameTextEntries(r: Record)
    ensures SameEntries(TextMembers(r), EncodeMembers(ContentMembers(r)))
  {
    var em, tm := EncodeMembers(ContentMembers(r)), TextMembers(r);
    forall i | 0 <= i < 10 ensures |em| == 10 && tm[i] in em {
      TextMember(r, i);
    }
    forall k | 0 <= k < 10 ensures em[k] in tm {
      PlaceInText(k);
      TextMember(r, TEXT_PLACES[k]);
    }
  }

  lemma PlaceInText(k: nat)
    requires k < 10
    ensures TEXT_PLACES[k] < 10 && TEXT_ORDER[TEXT_PLACES[k]] == k
  {
  }

  lemma SortedTextMembers(r: Record)
    ensures Sort(EncodeMembers(ContentMembers(r))) == TextMembers(r)
  {
    EncodedDistinct(r);
    TextKeysAscend(r);
    SameTextEntries(r);
    SortedIs(EncodeMembers(ContentMembers(r)), TextMembers(r));
  }

  lemma SortedIs(es: seq<Entry<string>>, sorted: seq<Entry<string>>)
    requires Distinct(es) && Increasing(sorted) && SameEntries(sorted, es)
    ensures Sort(es) == sorted
  {
    SortIncreasing(es);
    SortMembers(es);
    IncreasingUnique(Sort(es), sorted);
  }

  lemma {:induction false} PlainIsQuoted(s: string)
    requires Plain(s)
    ensures Escape(s) == s && Quote(s) == "\"" + s + "\""
  {
    if s == [] {
    } else {
      PlainIsQuoted(s[1..]);
      assert s == [s[0]] + s[1..];
    }
  }

  function FieldText(name: string, value: string): string {
    "\"" + name + "\":" + value
  }

  /** Fields with a comma between any two, and nothing else. */
  function FieldsText(ms: seq<Entry<string>>): string {
    if ms == [] then ""
    else if |ms| == 1 then FieldText(ms[0].key, ms[0].val)
    else FieldText(ms[0].key, ms[0].val) + "," + FieldsText(ms[1..])
  }

  lemma {:induction false} JoinedFields(ms: seq<Entry<string>>)
    requires forall i :: 0 <= i < |ms| ==> Plain(ms[i].key)
    ensures JoinMembers(ms) == FieldsText(ms)
  {
    if ms == [] {
    } else {
      PlainIsQuoted(ms[0].key);
      assert MemberText(ms[0]) == FieldText(ms[0].key, ms[0].val);
      JoinedFields(ms[1..]);
    }
  }

  lemma DumpsOf(ms: seq<Entry<Json>>)
    requires FloatFree(Obj(ms))
    ensures CanonicalDumps(Obj(ms)) == Ok("{" + JoinMembers(Sort(EncodeMembers(ms))) + "}\n")
  {
    assert Encode(Obj(ms)) + "\n" == "{" + JoinMembers(Sort(EncodeMembers(ms))) + "}\n";
  }

  /**
   * The text that is hashed for a record: its ten fields, under their names and in this order, without a blank, in
   * braces and with a final newline.
   */
  lemma LockedText(r: Record)
    ensures CanonicalDumps(Obj(ContentMembers(r))) == Ok("{" + FieldsText(TextMembers(r)) + "}\n")
  {
    ContentWellFormed(r);
    SortedTextMembers(r);
    forall i | 0 <= i < |TextMembers(r)| ensures Plain(TextMembers(r)[i].key) {
      PlainNames(i);
    }
    JoinedFields(TextMembers(r));
    DumpsOf(ContentMembers(r));
  }

  /** What is stored: the same ten fields, and the lock hash under its own name, which the text leaves out. */
  lemma StoredFields(r: Record)
    ensures |Dump(r)| == 11 && Dump(r)[10] == Entry("lock_hash", Str(r.lockHash))
    ensures forall i :: 0 <= i < 10 ==> Dump(r)[TEXT_ORDER[i]].key == NAMES[i]
    ensures CanonicalPayload(Dump(r)) == ContentMembers(r)
  {
    DumpPayload(r);
    forall i | 0 <= i < 10 ensures Dump(r)[TEXT_ORDER[i]].key == NAMES[i] {
      NameOf(r, i);
    }
  }
}
