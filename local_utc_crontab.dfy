/** The Ansible filters that convert AWS CloudWatch crontabs to standard crontabs and
    back, and that expand a localized AWS crontab into UTC crontabs. */
module LocalUtcCrontab {
  import opened Tokens

  datatype Result<T, E> = Success(value: T) | Failure(error: E)

  /** Field roles of an AWS crontab by position (`cron_part_index_tuple`). */
  const RoleNames: seq<string> := ["minute", "hour", "day", "month", "weekday", "year"]

  /** What the downgrade removes: the year token and the roles that held `?`. */
  datatype AwsSpecificDetails = AwsSpecificDetails(year: string, questionParts: seq<string>)

  datatype ConvertedCronFromAws =
    ConvertedCronFromAws(crontab: string, awsSpecificDetails: AwsSpecificDetails)

  /** The `AnsibleFilterError`s the filters raise. */
  datatype FilterError =
    | WrongFieldCount(found: nat, expected: nat)  // the split crontab has the wrong length
    | ConversionFailed(cause: string)             // the local-to-UTC converter raised

  /** Position of a role name in the role table. */
  function RolePosition(name: string): (k: nat)
    requires name in RoleNames
    ensures k < |RoleNames| && RoleNames[k] == name
  {
    FirstIndex(RoleNames, name)
  }

  // ---- Downgrade: AWS (6 fields) to standard (5 fields) ----

  function DowngradeToken(t: string): string {
    if t == "?" then "*" else t
  }

  /** Every `?` field turned into `*`, position by position: no `?` is left, and no
      other field changes. */
  function DowngradedFields(fs: seq<string>): (r: seq<string>)
  {
    seq(|fs|, i requires 0 <= i < |fs| => DowngradeToken(fs[i]))
  }

  /** The role names of the positions of `fs` that hold `?`, by increasing position:
      at most one per position. */
  function QuestionRoles(fs: seq<string>): (r: seq<string>)
    requires |fs| <= 5
    ensures |r| <= |fs|
  {
    if fs == [] then []
    else
      var k := |fs| - 1;
      QuestionRoles(fs[..k]) + (if fs[k] == "?" then [RoleNames[k]] else [])
  }

  /** The result `aws_to_standard_cron` computes, stated position by position. */
  function Downgrade(awsCronString: string): (r: Result<ConvertedCronFromAws, FilterError>)
    ensures r.Success? <==> |Split(awsCronString)| == 6
    ensures r.Failure? ==> r.error == WrongFieldCount(|Split(awsCronString)|, 6)
    ensures r.Success? ==> |Split(r.value.crontab)| == 5
  {
    var parts := Split(awsCronString);
    if |parts| != 6 then Failure(WrongFieldCount(|parts|, 6))
    else
      var fields := DowngradedFields(parts[..5]);
      SplitJoin(fields);
      Success(ConvertedCronFromAws(
        Join(fields),
        AwsSpecificDetails(parts[5], QuestionRoles(parts[..5]))))
  }

  /** `aws_to_standard_cron`, as written: it walks the live list and finds each `?`
      with a value search, overwriting it with `*` before the next search. */
  method AwsToStandardCron(awsCronString: string)
    returns (r: Result<ConvertedCronFromAws, FilterError>)
    ensures r == Downgrade(awsCronString)
  {
    var crontabParts := Split(awsCronString);
    if |crontabParts| != 6 {
      return Failure(WrongFieldCount(|crontabParts|, 6));
    }
    var crontabYearPart := crontabParts[5];
    crontabParts := crontabParts[..5];
    ghost var fields := crontabParts;
    var questionParts := [];
    var i := 0;
    while i < |crontabParts|
      invariant DowngradedThrough(fields, crontabParts, questionParts, i)
    {
      var part := crontabParts[i];
      DowngradeStep(fields, crontabParts, questionParts, i);
      if part == "?" {
        var questionPartIndex := FirstIndex(crontabParts, part);
        questionParts := questionParts + [RoleNames[questionPartIndex]];
        crontabParts := crontabParts[questionPartIndex := "*"];
      }
      i := i + 1;
    }
    DowngradeDone(fields, crontabParts, questionParts);
    r := Success(ConvertedCronFromAws(
      Join(crontabParts),
      AwsSpecificDetails(crontabYearPart, questionParts)));
  }

  /** The state of the downgrade loop after `i` iterations: the positions before `i`
      are downgraded, the rest are untouched, and `questionParts` names the `?`
      positions seen so far. */
  ghost predicate DowngradedThrough(fields: seq<string>, live: seq<string>,
                                    questionParts: seq<string>, i: nat)
  {
    && |fields| == |live| == 5 && i <= 5
    && (forall j :: 0 <= j < i ==> live[j] == DowngradeToken(fields[j]))
    && (forall j :: i <= j < 5 ==> live[j] == fields[j])
    && questionParts == QuestionRoles(fields[..i])
  }

  /** One iteration of the downgrade loop: the value search for `?` lands on the
      current position, because every earlier `?` is already `*`. */
  lemma DowngradeStep(fields: seq<string>, live: seq<string>, questionParts: seq<string>, i: nat)
    requires DowngradedThrough(fields, live, questionParts, i) && i < 5
    ensures live[i] == "?" ==>
              var k := FirstIndex(live, "?");
              && k == i
              && DowngradedThrough(fields, live[k := "*"], questionParts + [RoleNames[k]], i + 1)
    ensures live[i] != "?" ==> DowngradedThrough(fields, live, questionParts, i + 1)
  {
    assert fields[..i + 1][..i] == fields[..i];
  }

  /** When the downgrade loop ends, the five fields and the role list are the closed
      forms. */
  lemma DowngradeDone(fields: seq<string>, live: seq<string>, questionParts: seq<string>)
    requires DowngradedThrough(fields, live, questionParts, 5)
    ensures live == DowngradedFields(fields)
    ensures questionParts == QuestionRoles(fields)
  {
    assert fields[..5] == fields;
  }

  // ---- Upgrade: standard (5 fields) to AWS (6 fields) ----

  /** Every `*` at or before position `j` has its role listed in `questionParts`. */
  predicate StarsMarkedThrough(fs: seq<string>, questionParts: seq<string>, j: nat)
    requires j < |fs| <= 5
  {
    forall l :: 0 <= l <= j && fs[l] == "*" ==> RoleNames[l] in questionParts
  }

  /** What the upgrade loop leaves in the five fields, in closed form: a `*` becomes
      `?` exactly when no `*` at or before it has an unlisted role, because the value
      search keeps returning the first `*` still present. */
  function UpgradedFieldsAsWritten(fs: seq<string>, questionParts: seq<string>): (r: seq<string>)
    requires |fs| <= 5
  {
    seq(|fs|, j requires 0 <= j < |fs| =>
      if fs[j] == "*" && StarsMarkedThrough(fs, questionParts, j) then "?" else fs[j])
  }

  /** The result `standard_to_aws_cron` computes. */
  function Upgrade(cronString: string, details: AwsSpecificDetails): (r: Result<string, FilterError>)
    ensures r.Success? <==> |Split(cronString)| == 5
    ensures r.Failure? ==> r.error == WrongFieldCount(|Split(cronString)|, 5)
  {
    var parts := Split(cronString);
    if |parts| != 5 then Failure(WrongFieldCount(|parts|, 5))
    else Success(Join(UpgradedFieldsAsWritten(parts, details.questionParts) + [details.year]))
  }

  /** `standard_to_aws_cron`, as written: for each `*` it looks up the role of the
      FIRST `*` still in the list and turns that one into `?` if its role is listed. */
  method StandardToAwsCron(cronString: string, awsSpecificDetails: AwsSpecificDetails)
    returns (r: Result<string, FilterError>)
    ensures r == Upgrade(cronString, awsSpecificDetails)
  {
    var crontabParts := Split(cronString);
    if |crontabParts| != 5 {
      return Failure(WrongFieldCount(|crontabParts|, 5));
    }
    ghost var fields := crontabParts;
    ghost var marked := awsSpecificDetails.questionParts;
    var i := 0;
    while i < |crontabParts|
      invariant 0 <= i <= |crontabParts| == 5
      invariant UpgradedThrough(fields, marked, crontabParts, i)
    {
      var part := crontabParts[i];
      if part == "*" {
        var asteriskPartIndex := FirstIndex(crontabParts, part);
        UpgradeStep(fields, marked, crontabParts, i);
        var questionPartIndex := RoleNames[asteriskPartIndex];
        if questionPartIndex in awsSpecificDetails.questionParts {
          crontabParts := crontabParts[asteriskPartIndex := "?"];
        }
      }
      i := i + 1;
    }
    assert crontabParts == UpgradedFieldsAsWritten(fields, marked);
    crontabParts := crontabParts + [awsSpecificDetails.year];
    r := Success(Join(crontabParts));
  }

  /** The upgrade loop's invariant: positions before `i` hold their final value, the
      others their original one. */
  ghost predicate UpgradedThrough(fields: seq<string>, marked: seq<string>, live: seq<string>, i: nat)
  {
    && |fields| == |live| == 5
    && i <= 5
    && (forall j :: 0 <= j < i ==> live[j] == UpgradedFieldsAsWritten(fields, marked)[j])
    && (forall j :: i <= j < 5 ==> live[j] == fields[j])
  }

  /** One iteration on a `*`: the value search finds a position no later than the current
      one; it is the current one whenever its role is listed, and the update keeps the
      invariant. */
  lemma UpgradeStep(fields: seq<string>, marked: seq<string>, live: seq<string>, i: nat)
    requires UpgradedThrough(fields, marked, live, i) && i < 5 && live[i] == "*"
    ensures var k := FirstIndex(live, "*");
            && k <= i
            && (RoleNames[k] in marked ==> k == i && UpgradedThrough(fields, marked, live[k := "?"], i + 1))
            && (RoleNames[k] !in marked ==> UpgradedThrough(fields, marked, live, i + 1))
  {
    var k := FirstIndex(live, "*");
    UpgradeSearchFinds(fields, marked, live, i);
    if RoleNames[k] in marked {
      assert fields[k] == "*";
      assert StarsMarkedThrough(fields, marked, k);
      assert StarsMarkedThrough(fields, marked, i);
    } else {
      assert !StarsMarkedThrough(fields, marked, i);
    }
  }

  /** What the value search finds in the middle of the upgrade loop: a `*` no later than
      the current one, every `*` before it has a listed role, and if it lies before the
      current position it is a `*` the loop left in place. */
  lemma UpgradeSearchFinds(fields: seq<string>, marked: seq<string>, live: seq<string>, i: nat)
    requires UpgradedThrough(fields, marked, live, i) && i < 5 && live[i] == "*"
    ensures var k := FirstIndex(live, "*");
            && k <= i
            && fields[k] == "*"
            && (forall l :: 0 <= l < k && fields[l] == "*" ==> RoleNames[l] in marked)
            && (k < i ==> !StarsMarkedThrough(fields, marked, k))
  {
    var k := FirstIndex(live, "*");
    var done := UpgradedFieldsAsWritten(fields, marked);
    assert k <= i;
    forall l | 0 <= l < k && fields[l] == "*"
      ensures RoleNames[l] in marked
    {
      assert live[..k][l] == live[l] == done[l];
      assert StarsMarkedThrough(fields, marked, l);
    }
    if k < i {
      // a `*` left behind is one whose marks stopped at or before it
      assert live[k] == done[k] == "*";
    }
  }

  // ---- The upgrade the header comment promises ----

  /** Every `*` whose own role is listed becomes `?`, position by position. */
  function UpgradedFieldsPositional(fs: seq<string>, questionParts: seq<string>): seq<string>
    requires |fs| <= 5
  {
    seq(|fs|, j requires 0 <= j < |fs| =>
      if fs[j] == "*" && RoleNames[j] in questionParts then "?" else fs[j])
  }

  /** The upgrade with the role of each `*` taken from its own position. */
  function UpgradeIntended(cronString: string, details: AwsSpecificDetails): (r: Result<string, FilterError>)
    ensures r.Success? <==> |Split(cronString)| == 5
    ensures r.Failure? ==> r.error == WrongFieldCount(|Split(cronString)|, 5)
  {
    var parts := Split(cronString);
    if |parts| != 5 then Failure(WrongFieldCount(|parts|, 5))
    else Success(Join(UpgradedFieldsPositional(parts, details.questionParts) + [details.year]))
  }

  // ---- Expansion of a localized AWS crontab into UTC AWS crontabs ----

  /** The external `Converter(crontab, timezone).to_utc_crons()`: either the failure it
      raised, or the list of standard UTC crontabs it returned. */
  type UtcConverter = (string, string) -> Result<seq<string>, string>

  /** The list comprehension of line 111: upgrades every crontab in order; the first
      one that fails to upgrade makes the whole list fail. */
  function UpgradeEach(crons: seq<string>, details: AwsSpecificDetails): (r: Result<seq<string>, FilterError>)
    ensures r.Success? <==> forall i :: 0 <= i < |crons| ==> Upgrade(crons[i], details).Success?
    ensures r.Success? ==>
              && |r.value| == |crons|
              && forall i :: 0 <= i < |crons| ==> r.value[i] == Upgrade(crons[i], details).value
    ensures r.Failure? ==>
              exists i ::
                && 0 <= i < |crons|
                && Upgrade(crons[i], details).Failure?
                && r.error == Upgrade(crons[i], details).error
                && forall j :: 0 <= j < i ==> Upgrade(crons[j], details).Success?
  {
    if crons == [] then Success([])
    else
      match Upgrade(crons[0], details)
      case Failure(e) => Failure(e)
      case Success(c) =>
        match UpgradeEach(crons[1..], details)
        case Failure(e) =>
          assert forall i :: 1 <= i < |crons| ==> crons[1..][i - 1] == crons[i];
          Failure(e)
        case Success(cs) => Success([c] + cs)
  }

  /** `aws_local_cron_to_aws_utc_crons`: downgrade, convert to UTC, upgrade each
      result with the side data of the one downgrade. */
  function AwsLocalCronToAwsUtcCrons(localCrontab: string, timezone: string, toUtcCrons: UtcConverter)
    : (r: Result<seq<string>, FilterError>)
    // a downgrade failure is raised before the converter is consulted
    ensures Downgrade(localCrontab).Failure? ==> r == Failure(Downgrade(localCrontab).error)
    // a converter failure becomes a filter error, with no partial result
    ensures Downgrade(localCrontab).Success? ==>
              var standardCron := Downgrade(localCrontab).value.crontab;
              toUtcCrons(standardCron, timezone).Failure? ==>
                r == Failure(ConversionFailed(toUtcCrons(standardCron, timezone).error))
    // otherwise element i is the upgrade of the converter's element i
    ensures Downgrade(localCrontab).Success? ==>
              var converted := Downgrade(localCrontab).value;
              toUtcCrons(converted.crontab, timezone).Success? ==>
                var utc := toUtcCrons(converted.crontab, timezone).value;
                && (r.Success? <==>
                      forall i :: 0 <= i < |utc| ==> Upgrade(utc[i], converted.awsSpecificDetails).Success?)
                && (r.Success? ==>
                      && |r.value| == |utc|
                      && forall i :: 0 <= i < |utc| ==>
                           r.value[i] == Upgrade(utc[i], converted.awsSpecificDetails).value)
  {
    match Downgrade(localCrontab)
    case Failure(e) => Failure(e)
    case Success(standardCron) =>
      match toUtcCrons(standardCron.crontab, timezone)
      case Failure(cause) => Failure(ConversionFailed(cause))
      case Success(utcCrontabs) => UpgradeEach(utcCrontabs, standardCron.awsSpecificDetails)
  }
}
