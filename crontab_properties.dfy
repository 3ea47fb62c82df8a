/** What the crontab filters guarantee, and where the upgrade falls short of undoing
    the downgrade. */
module CrontabProperties {
  import opened Tokens
  import opened LocalUtcCrontab

  // ---- The role table ----

  /** No name appears twice in the role table. */
  lemma RoleNamesDistinct()
    ensures forall i, j :: 0 <= i < j < |RoleNames| ==> RoleNames[i] != RoleNames[j]
  {
  }

  // ---- Downgrade ----

  /** `?` positions and recorded roles correspond exactly, and no other name is recorded. */
  lemma {:induction false} QuestionRolesMembers(fs: seq<string>)
    requires |fs| <= 5
    ensures forall i :: 0 <= i < |fs| ==> (RoleNames[i] in QuestionRoles(fs) <==> fs[i] == "?")
    ensures forall n :: n in QuestionRoles(fs) ==> n in RoleNames && RolePosition(n) < |fs|
  {
    RoleNamesDistinct();
    if fs != [] {
      var k := |fs| - 1;
      QuestionRolesMembers(fs[..k]);
      assert forall i :: 0 <= i < k ==> fs[..k][i] == fs[i];
    }
  }

  /** The recorded roles come in strictly increasing table order: no duplicates. */
  lemma {:induction false} QuestionRolesOrdered(fs: seq<string>)
    requires |fs| <= 5
    ensures forall n :: n in QuestionRoles(fs) ==> n in RoleNames
    ensures forall a, b :: 0 <= a < b < |QuestionRoles(fs)| ==>
              RolePosition(QuestionRoles(fs)[a]) < RolePosition(QuestionRoles(fs)[b])
  {
    RoleNamesDistinct();
    QuestionRolesMembers(fs);
    if fs != [] {
      var k := |fs| - 1;
      QuestionRolesOrdered(fs[..k]);
      QuestionRolesMembers(fs[..k]);
    }
  }

  /** The downgraded fields: one per input field, no `?` left, each `?` turned into `*`
      and every other field unchanged. */
  lemma DowngradedFieldsReplaceQuestions(fs: seq<string>)
    ensures var r := DowngradedFields(fs);
            && |r| == |fs|
            && "?" !in r
            && (forall i :: 0 <= i < |fs| ==> r[i] == (if fs[i] == "?" then "*" else fs[i]))
  {
  }

  /** Downgrade output: the standard crontab is the first five fields with each `?`
      turned into `*` and every other field unchanged; the year is the sixth field
      verbatim, even when it is `?`. */
  lemma DowngradeFields(awsCronString: string)
    requires |Split(awsCronString)| == 6
    ensures var parts := Split(awsCronString);
            var converted := Downgrade(awsCronString).value;
            var standard := Split(converted.crontab);
            && |standard| == 5
            && (forall i :: 0 <= i < 5 ==> standard[i] == (if parts[i] == "?" then "*" else parts[i]))
            && converted.awsSpecificDetails.year == parts[5]
  {
    var parts := Split(awsCronString);
    SplitJoin(DowngradedFields(parts[..5]));
  }

  /** Downgrade side data: exactly the roles of the first five positions that held `?`,
      by increasing position, without duplicates and never `year`. */
  lemma DowngradeQuestionParts(awsCronString: string)
    requires |Split(awsCronString)| == 6
    ensures var parts := Split(awsCronString);
            var questionParts := Downgrade(awsCronString).value.awsSpecificDetails.questionParts;
            && (forall i :: 0 <= i < 5 ==> (RoleNames[i] in questionParts <==> parts[i] == "?"))
            && (forall n :: n in questionParts ==> n in RoleNames && RolePosition(n) < 5)
            && "year" !in questionParts
            && (forall a, b :: 0 <= a < b < |questionParts| ==>
                  RolePosition(questionParts[a]) < RolePosition(questionParts[b]))
  {
    var parts := Split(awsCronString);
    var fields := parts[..5];
    QuestionRolesMembers(fields);
    QuestionRolesOrdered(fields);
    assert forall i :: 0 <= i < 5 ==> fields[i] == parts[i];
    RoleNamesDistinct();
    assert RolePosition("year") == 5;
  }

  // ---- Upgrade as written ----

  /** The upgraded fields as written: one per input field; a field changes only from
      `*` to `?`, and only for a listed role; and once a `*` stays `*`, every later `*`
      stays `*` as well. */
  lemma UpgradedFieldsChangeOnlyListedStars(fs: seq<string>, questionParts: seq<string>)
    requires |fs| <= 5
    ensures var r := UpgradedFieldsAsWritten(fs, questionParts);
            && |r| == |fs|
            && (forall j :: 0 <= j < |fs| ==>
                  r[j] == fs[j] || (fs[j] == "*" && r[j] == "?" && RoleNames[j] in questionParts))
            && (forall a, b :: 0 <= a < b < |fs| && fs[a] == "*" && r[a] == "*" && fs[b] == "*" ==>
                  r[b] == "*")
  {
  }

  /** Upgrade output: the list that is joined has six fields and ends with the given
      year; a field changes only if it is exactly `*` with a listed role, and then only
      to `?`. When the year is a single token, splitting the result gives that list back. */
  lemma UpgradeFields(cronString: string, details: AwsSpecificDetails)
    requires |Split(cronString)| == 5
    ensures var parts := Split(cronString);
            var aws := UpgradedFieldsAsWritten(parts, details.questionParts) + [details.year];
            && Upgrade(cronString, details) == Success(Join(aws))
            && |aws| == 6
            && aws[5] == details.year
            && (forall i :: 0 <= i < 5 ==>
                  (aws[i] == parts[i]
                   || (parts[i] == "*" && aws[i] == "?" && RoleNames[i] in details.questionParts)))
            && (IsToken(details.year) ==> Split(Upgrade(cronString, details).value) == aws)
  {
    var parts := Split(cronString);
    var aws := UpgradedFieldsAsWritten(parts, details.questionParts) + [details.year];
    if IsToken(details.year) {
      SplitJoin(aws);
    }
  }

  /** The exact effect of the value search: if the `*` at position `k` is the first one
      whose role is not listed, every `*` before it becomes `?` and nothing from `k` on
      changes, however many later `*` have listed roles. When the year is a single token,
      splitting the result gives that list back. */
  lemma UpgradeStopsAtFirstUnlistedStar(cronString: string, details: AwsSpecificDetails, k: nat)
    requires |Split(cronString)| == 5
    requires k < 5 && Split(cronString)[k] == "*" && RoleNames[k] !in details.questionParts
    requires forall l :: 0 <= l < k && Split(cronString)[l] == "*" ==> RoleNames[l] in details.questionParts
    ensures var parts := Split(cronString);
            var aws := UpgradedFieldsAsWritten(parts, details.questionParts) + [details.year];
            && Upgrade(cronString, details) == Success(Join(aws))
            && (forall j :: 0 <= j < k && parts[j] == "*" ==> aws[j] == "?")
            && (forall j :: k <= j < 5 ==> aws[j] == parts[j])
            && (IsToken(details.year) ==> Split(Upgrade(cronString, details).value) == aws)
  {
    var parts := Split(cronString);
    var aws := UpgradedFieldsAsWritten(parts, details.questionParts) + [details.year];
    if IsToken(details.year) {
      SplitJoin(aws);
    }
  }

  /** Only the roles of positions 0..4 are ever looked up, so a `year` entry in the side
      data has no effect. */
  lemma UpgradeIgnoresYearEntry(cronString: string, details: AwsSpecificDetails)
    ensures Upgrade(cronString, details.(questionParts := details.questionParts + ["year"]))
            == Upgrade(cronString, details)
  {
    var parts := Split(cronString);
    if |parts| == 5 {
      var qp := details.questionParts;
      var qp' := qp + ["year"];
      RoleNamesDistinct();
      assert forall l :: 0 <= l < 5 ==> (RoleNames[l] in qp' <==> RoleNames[l] in qp);
      assert UpgradedFieldsAsWritten(parts, qp') == UpgradedFieldsAsWritten(parts, qp);
    }
  }

  // ---- As written versus intended ----

  /** No `*` with an unlisted role comes before a `*` with a listed role. */
  predicate NoUnlistedStarBeforeListed(fs: seq<string>, questionParts: seq<string>)
    requires |fs| <= 5
  {
    forall l, j :: 0 <= l < j < |fs| && fs[l] == "*" && fs[j] == "*" && RoleNames[j] in questionParts
      ==> RoleNames[l] in questionParts
  }

  lemma {:induction false} JoinAppend(ts: seq<string>, last: string)
    requires |ts| >= 1
    ensures Join(ts + [last]) == Join(ts) + " " + last
  {
    var ext := ts + [last];
    assert ext[0] == ts[0] && ext[1..] == ts[1..] + [last];
    if |ts| == 1 {
      assert ext[1..] == [last];
      assert Join(ext) == ts[0] + " " + last;
    } else {
      JoinAppend(ts[1..], last);
      calc {
        Join(ext);
        ts[0] + " " + Join(ts[1..] + [last]);
        ts[0] + " " + (Join(ts[1..]) + " " + last);
        { assert ts[0] + " " + (Join(ts[1..]) + " " + last) == (ts[0] + " " + Join(ts[1..])) + " " + last; }
        Join(ts) + " " + last;
      }
    }
  }

  /** Joining five tokens and the same last field: different tokens give different strings. */
  lemma JoinAppendInjective(a: seq<string>, b: seq<string>, last: string)
    requires |a| == |b| == 5 && AllTokens(a) && AllTokens(b)
    requires Join(a + [last]) == Join(b + [last])
    ensures a == b
  {
    JoinAppend(a, last);
    JoinAppend(b, last);
    var ja, jb := Join(a), Join(b);
    assert |ja| == |jb|;
    assert ja == (ja + " " + last)[..|ja|];
    assert jb == (jb + " " + last)[..|jb|];
    JoinInjective(a, b);
  }

  /** The upgrade as written and the positional upgrade agree exactly when no `*` with an
      unlisted role precedes a `*` with a listed role. */
  lemma AsWrittenAgreesWithIntended(cronString: string, details: AwsSpecificDetails)
    ensures Upgrade(cronString, details) == UpgradeIntended(cronString, details)
            <==> (|Split(cronString)| != 5 || NoUnlistedStarBeforeListed(Split(cronString), details.questionParts))
  {
    var parts := Split(cronString);
    if |parts| == 5 {
      var qp := details.questionParts;
      var written := UpgradedFieldsAsWritten(parts, qp);
      var intended := UpgradedFieldsPositional(parts, qp);
      WrittenFieldsAgreeWithPositional(parts, qp);
      if written != intended && Join(written + [details.year]) == Join(intended + [details.year]) {
        JoinAppendInjective(written, intended, details.year);
      }
    }
  }

  /** The same agreement, on the five fields before the year is appended. */
  lemma WrittenFieldsAgreeWithPositional(fs: seq<string>, questionParts: seq<string>)
    requires |fs| == 5
    ensures UpgradedFieldsAsWritten(fs, questionParts) == UpgradedFieldsPositional(fs, questionParts)
            <==> NoUnlistedStarBeforeListed(fs, questionParts)
  {
    var written := UpgradedFieldsAsWritten(fs, questionParts);
    var intended := UpgradedFieldsPositional(fs, questionParts);
    if NoUnlistedStarBeforeListed(fs, questionParts) {
      forall j | 0 <= j < 5 ensures written[j] == intended[j] {
        if fs[j] == "*" && RoleNames[j] in questionParts {
          assert StarsMarkedThrough(fs, questionParts, j);
        }
      }
      assert written == intended;
    } else {
      var l, j :| 0 <= l < j < 5 && fs[l] == "*" && fs[j] == "*" && RoleNames[j] in questionParts
                  && RoleNames[l] !in questionParts;
      assert written[j] == "*" && intended[j] == "?";
    }
  }

  /** No `*` comes before a `?`. */
  predicate NoStarBeforeQuestion(fs: seq<string>) {
    forall l, j :: 0 <= l < j < |fs| && fs[j] == "?" ==> fs[l] != "*"
  }

  /** The positional upgrade undoes the downgrade for every 6-field crontab: the result
      is the input's fields joined by single spaces. */
  lemma IntendedRoundTrip(awsCronString: string)
    requires |Split(awsCronString)| == 6
    ensures var converted := Downgrade(awsCronString).value;
            var back := UpgradeIntended(converted.crontab, converted.awsSpecificDetails);
            && back == Success(Join(Split(awsCronString)))
            && Split(back.value) == Split(awsCronString)
  {
    var parts := Split(awsCronString);
    var fields := parts[..5];
    var standard := DowngradedFields(fields);
    SplitJoin(standard);
    PositionalUndoesDowngrade(fields);
    assert fields + [parts[5]] == parts;
    SplitJoin(parts);
  }

  /** On the five fields: restoring `?` at every listed position gives back the fields
      the downgrade started from. */
  lemma PositionalUndoesDowngrade(fields: seq<string>)
    requires |fields| == 5
    ensures UpgradedFieldsPositional(DowngradedFields(fields), QuestionRoles(fields)) == fields
  {
    var back := UpgradedFieldsPositional(DowngradedFields(fields), QuestionRoles(fields));
    QuestionRolesMembers(fields);
    forall j | 0 <= j < 5 ensures back[j] == fields[j] {
    }
  }

  /** The source's round trip holds exactly when no `*` comes before a `?` among the
      first five fields of the AWS crontab. */
  lemma RoundTripAsWritten(awsCronString: string)
    requires |Split(awsCronString)| == 6
    ensures var converted := Downgrade(awsCronString).value;
            (Upgrade(converted.crontab, converted.awsSpecificDetails) == Success(Join(Split(awsCronString))))
            <==> NoStarBeforeQuestion(Split(awsCronString)[..5])
  {
    var parts := Split(awsCronString);
    var fields := parts[..5];
    var converted := Downgrade(awsCronString).value;
    var standard := DowngradedFields(fields);
    SplitJoin(standard);
    assert Split(converted.crontab) == standard;
    IntendedRoundTrip(awsCronString);
    AsWrittenAgreesWithIntended(converted.crontab, converted.awsSpecificDetails);
    ListedStarsAreQuestions(fields);
  }

  /** After a downgrade, "no unlisted `*` before a listed one" is "no `*` before a `?`". */
  lemma ListedStarsAreQuestions(fields: seq<string>)
    requires |fields| == 5
    ensures NoUnlistedStarBeforeListed(DowngradedFields(fields), QuestionRoles(fields))
            <==> NoStarBeforeQuestion(fields)
  {
    var standard := DowngradedFields(fields);
    var marked := QuestionRoles(fields);
    QuestionRolesMembers(fields);
    // a listed `*` was a `?`, an unlisted `*` was a `*`
    assert forall i :: 0 <= i < 5 ==>
             (standard[i] == "*" && RoleNames[i] in marked <==> fields[i] == "?");
    assert forall i :: 0 <= i < 5 ==>
             (standard[i] == "*" && RoleNames[i] !in marked <==> fields[i] == "*");
  }

  /** AWS's common form `0 10 * * ? *` (with any spacing) does not survive the round
      trip: the weekday `?` comes back as `*`. */
  lemma RoundTripFailsOnCommonForm(awsCronString: string)
    requires Split(awsCronString) == ["0", "10", "*", "*", "?", "*"]
    ensures var converted := Downgrade(awsCronString).value;
            var back := Upgrade(converted.crontab, converted.awsSpecificDetails);
            && converted.awsSpecificDetails == AwsSpecificDetails("*", ["weekday"])
            && back.Success?
            && Split(back.value) == ["0", "10", "*", "*", "*", "*"]
            && Split(back.value) != Split(awsCronString)
  {
    DowngradeCommonForm(awsCronString);
    var converted := Downgrade(awsCronString).value;
    UpgradeCommonForm(converted.crontab);
    assert Split(awsCronString)[4] == "?";
  }

  lemma DowngradeCommonForm(awsCronString: string)
    requires Split(awsCronString) == ["0", "10", "*", "*", "?", "*"]
    ensures var converted := Downgrade(awsCronString).value;
            && converted.awsSpecificDetails == AwsSpecificDetails("*", ["weekday"])
            && Split(converted.crontab) == ["0", "10", "*", "*", "*"]
  {
    var fields := ["0", "10", "*", "*", "?"];
    var standard := ["0", "10", "*", "*", "*"];
    assert Split(awsCronString)[..5] == fields;
    assert DowngradedFields(fields) == standard;
    QuestionRolesCommonForm();
    SplitJoin(standard);
  }

  lemma QuestionRolesCommonForm()
    ensures QuestionRoles(["0", "10", "*", "*", "?"]) == ["weekday"]
  {
    var fields := ["0", "10", "*", "*", "?"];
    assert fields[..4] == ["0", "10", "*", "*"];
    assert fields[..4][..3] == ["0", "10", "*"];
    assert fields[..4][..3][..2] == ["0", "10"];
    assert fields[..4][..3][..2][..1] == ["0"];
    assert QuestionRoles(["0"]) == [];
    assert QuestionRoles(["0", "10", "*", "*"]) == [];
  }

  lemma UpgradeCommonForm(cronString: string)
    requires Split(cronString) == ["0", "10", "*", "*", "*"]
    ensures var back := Upgrade(cronString, AwsSpecificDetails("*", ["weekday"]));
            && back.Success?
            && Split(back.value) == ["0", "10", "*", "*", "*", "*"]
  {
    var standard := ["0", "10", "*", "*", "*"];
    assert RoleNames[2] !in ["weekday"];
    assert forall j :: 2 <= j < 5 ==> !StarsMarkedThrough(standard, ["weekday"], j);
    assert UpgradedFieldsAsWritten(standard, ["weekday"]) == standard;
    SplitJoin(standard + ["*"]);
  }

  /** The literal `0 10 * * ? *` has the fields the counterexample above is about. */
  lemma CommonFormFields()
    ensures Split("0 10 * * ? *") == ["0", "10", "*", "*", "?", "*"]
  {
    var aws := ["0", "10", "*", "*", "?", "*"];
    assert Join(aws) == "0 10 * * ? *";
    SplitJoin(aws);
  }

  // ---- Expansion ----

  /** Every UTC crontab of a successful expansion has six fields, ends with the local
      crontab's year, and differs from the converter's output only where a `*` became
      `?` at a position that held `?` in the local crontab. */
  lemma ExpandedCronsKeepYearAndMarks(localCrontab: string, timezone: string, toUtcCrons: UtcConverter)
    requires AwsLocalCronToAwsUtcCrons(localCrontab, timezone, toUtcCrons).Success?
    ensures var local := Split(localCrontab);
            var converted := Downgrade(localCrontab).value;
            var utc := toUtcCrons(converted.crontab, timezone).value;
            var result := AwsLocalCronToAwsUtcCrons(localCrontab, timezone, toUtcCrons).value;
            && |local| == 6
            && |result| == |utc|
            && forall i :: 0 <= i < |result| ==>
                 && |Split(utc[i])| == 5
                 && |Split(result[i])| == 6
                 && Split(result[i])[5] == local[5]
                 && forall j :: 0 <= j < 5 ==>
                      (Split(result[i])[j] == Split(utc[i])[j]
                       || (Split(utc[i])[j] == "*" && Split(result[i])[j] == "?" && local[j] == "?"))
  {
    var converted := Downgrade(localCrontab).value;
    var details := converted.awsSpecificDetails;
    var utc := toUtcCrons(converted.crontab, timezone).value;
    DowngradeFields(localCrontab);
    DowngradeQuestionParts(localCrontab);
    forall i | 0 <= i < |utc| {
      UpgradeFields(utc[i], details);
    }
  }
}
