/** Histories at the edges of what keeps the recipients consistent. */
module MembershipExamples {
  import opened Basics
  import opened Texts
  import opened VaultEvents
  import opened MembershipSpec
  import opened MembershipProofs

  const ANN: Text := [97]
  const BOB: Text := [98]
  const UNA: Text := [117]

  /** Ann is here; Ann and Bob are filed, Una is not. */
  const PEOPLE: People := People(
    map[ANN := Identity(ANN, 1, 10, None)],
    map[ANN := PublicIdentity(ANN, 1, 1), BOB := PublicIdentity(BOB, 2, 2)])

  function Draw(key: Key): Random {
    Random(key, (n: nat) => [])
  }

  function ToAnn(epoch: nat, key: Key, kind: GrantKind): Event {
    Grant([], ANN, 1, kind, ANN, epoch, Envelope(1, key, false))
  }

  const AFTER_CREATE: Repo := Repo([ToAnn(1, 1, RepoCreated)], map[1 := 1], Some(1))

  lemma Created()
    ensures WellFiled(PEOPLE)
    ensures CreateRepo(PEOPLE, NO_REPO, ANN, ANN, false, Draw(1)) == AFTER_CREATE
    ensures ActiveRecipients(AFTER_CREATE.log) == {ANN} == Holders(AFTER_CREATE.log, 1)
    ensures Holders(AFTER_CREATE.log, 2) == {}
  {
    ActiveAppend([], ToAnn(1, 1, RepoCreated));
    assert [] + [ToAnn(1, 1, RepoCreated)] == AFTER_CREATE.log;
  }

  lemma SortedOne(x: Text)
    ensures Sorted({x}) == [x]
  {
    SortUnique(Sorted({x}), [x]);
  }

  lemma SortedTwo(x: Text, y: Text)
    requires Less(x, y)
    ensures Sorted({x, y}) == [x, y]
  {
    LessIrreflexive(x);
    SortUnique(Sorted({x, y}), [x, y]);
  }

  // ----- creating again after a rotation -----

  const TO_BOB: Event := Grant([], ANN, 1, MemberGranted, BOB, 1, Envelope(2, 1, false))
  const BOB_OUT: Event := Revocation([], ANN, 1, 1, BOB, 2)

  const GRANTED: Repo := Repo(AFTER_CREATE.log + [TO_BOB], map[1 := 1], Some(1))
  const REVOKED: Repo := Repo(GRANTED.log + [BOB_OUT] + [ToAnn(2, 2, KeyRotated)], map[1 := 1, 2 := 2], Some(2))
  const AGAIN: Repo := Repo(REVOKED.log + [ToAnn(1, 3, RepoCreated)], map[1 := 3], Some(1))

  lemma RevokeBob()
    ensures RevokeRepo(PEOPLE, GRANTED, BOB, ANN, false, Draw(2)) == REVOKED
    ensures ActiveRecipients(REVOKED.log) == {ANN}
  {
    Created();
    ActiveAppend(AFTER_CREATE.log, TO_BOB);
    ActiveAppend(GRANTED.log, BOB_OUT);
    ActiveAppend(GRANTED.log + [BOB_OUT], ToAnn(2, 2, KeyRotated));
    assert Remaining(PEOPLE, GRANTED, BOB, ANN) == {ANN};
    SortedOne(ANN);
    var r := Rotated(PEOPLE, GRANTED, BOB, ANN, Draw(2));
    assert r == Repo(GRANTED.log + [BOB_OUT], map[1 := 1, 2 := 2], Some(2));
    assert [ANN][1..] == [];
    assert RotateFor(PEOPLE, r, [ANN], ANN, 2, false, Draw(2)) == Append(r, ToAnn(2, 2, KeyRotated));
  }

  lemma CreatedAgain()
    ensures CreateRepo(PEOPLE, REVOKED, ANN, ANN, false, Draw(3)) == AGAIN
    ensures ActiveRecipients(AGAIN.log) == {ANN}
  {
    hide ActiveRecipients, RevokeRepo;
    RevokeBob();
    ActiveAppend(REVOKED.log, ToAnn(1, 3, RepoCreated));
  }

  lemma HoldersAgain()
    ensures Holders(AGAIN.log, 1) == {ANN, BOB}
  {
    hide Holders, ActiveRecipients;
    Created();
    HoldersAppend(AFTER_CREATE.log, TO_BOB, 1);
    HoldersAppend(GRANTED.log, BOB_OUT, 1);
    HoldersAppend(GRANTED.log + [BOB_OUT], ToAnn(2, 2, KeyRotated), 1);
    HoldersAppend(REVOKED.log, ToAnn(1, 3, RepoCreated), 1);
  }

  /** Create, grant Bob, revoke Bob, create again: Bob, who is not active, holds a grant of the epoch that
      is current again. */
  lemma CreatingAgainBreaks()
    ensures var people := [PEOPLE, PEOPLE, PEOPLE, PEOPLE];
            var ops := [Create(ANN, ANN, false, Draw(1)), GrantTo(BOB, ANN, false, Draw(0)), Revoke(BOB, ANN, false, Draw(2)), Create(ANN, ANN, false, Draw(3))];
            IsHistory(people, [NO_REPO, AFTER_CREATE, GRANTED, REVOKED, AGAIN], ops)
    ensures ActiveRecipients(AGAIN.log) == {ANN} && Holders(AGAIN.log, AGAIN.epoch.value) == {ANN, BOB}
  {
    hide RevokeRepo, ActiveRecipients, Holders, CreateRepo;
    Created();
    RevokeBob();
    CreatedAgain();
    HoldersAgain();
    assert Perform(PEOPLE, AFTER_CREATE, GrantTo(BOB, ANN, false, Draw(0))) == GRANTED;
  }

  // ----- a rotation that stops half-way -----

  const TO_UNA: Event := Grant([], ANN, 1, MemberGranted, UNA, 1, Envelope(3, 1, true))

  const WITH_UNA: Repo := Repo(AFTER_CREATE.log + [TO_UNA], map[1 := 1], Some(1))
  const HALF_WAY: Repo := Repo(WITH_UNA.log + [BOB_OUT] + [ToAnn(2, 2, KeyRotated)], map[1 := 1, 2 := 2], Some(2))

  lemma RevokeStops()
    ensures RevokeRepo(PEOPLE, WITH_UNA, BOB, ANN, false, Draw(2)) == HALF_WAY
    ensures Remaining(PEOPLE, WITH_UNA, BOB, ANN) == {ANN, UNA}
    ensures ActiveRecipients(WITH_UNA.log) == {ANN, UNA} == ActiveRecipients(HALF_WAY.log)
  {
    Created();
    ActiveAppend(AFTER_CREATE.log, TO_UNA);
    ActiveAppend(WITH_UNA.log, BOB_OUT);
    ActiveAppend(WITH_UNA.log + [BOB_OUT], ToAnn(2, 2, KeyRotated));
    assert ActiveRecipients(WITH_UNA.log) == {ANN, UNA};
    assert Remaining(PEOPLE, WITH_UNA, BOB, ANN) == {ANN, UNA};
    assert ActiveRecipients(HALF_WAY.log) == {ANN, UNA};
    assert Less(ANN, UNA);
    SortedTwo(ANN, UNA);
    var r := Rotated(PEOPLE, WITH_UNA, BOB, ANN, Draw(2));
    assert r == Repo(WITH_UNA.log + [BOB_OUT], map[1 := 1, 2 := 2], Some(2));
    assert [ANN, UNA][1..] == [UNA];
    assert UNA !in PEOPLE.known;
    assert RotateFor(PEOPLE, Append(r, ToAnn(2, 2, KeyRotated)), [UNA], ANN, 2, false, Draw(2)) == Append(r, ToAnn(2, 2, KeyRotated));
    assert RotateFor(PEOPLE, r, [ANN, UNA], ANN, 2, false, Draw(2)) == Append(r, ToAnn(2, 2, KeyRotated));
  }

  /** Create, grant Una, whose identity is not filed, revoke Bob: the rotation throws at Una, who stays
      active without a grant of the new epoch. */
  lemma RotationStopsHalfWay()
    ensures var people := [PEOPLE, PEOPLE, PEOPLE];
            var ops := [Create(ANN, ANN, false, Draw(1)), GrantIdentity(PublicIdentity(UNA, 3, 3), ANN, Draw(0)), Revoke(BOB, ANN, false, Draw(2))];
            IsHistory(people, [NO_REPO, AFTER_CREATE, WITH_UNA, HALF_WAY], ops)
    ensures ActiveRecipients(HALF_WAY.log) == {ANN, UNA} && Holders(HALF_WAY.log, HALF_WAY.epoch.value) == {ANN}
    ensures !RotationReaches(PEOPLE, WITH_UNA, BOB, ANN)
  {
    hide RevokeRepo, ActiveRecipients, Less;
    Created();
    RevokeStops();
    HoldersAppend(AFTER_CREATE.log, TO_UNA, 2);
    HoldersAppend(WITH_UNA.log, BOB_OUT, 2);
    HoldersAppend(WITH_UNA.log + [BOB_OUT], ToAnn(2, 2, KeyRotated), 2);
    LessIrreflexive(UNA);
    assert UNA in ActiveRecipients(WITH_UNA.log) - {BOB} && UNA in Remaining(PEOPLE, WITH_UNA, BOB, ANN) && UNA !in PEOPLE.known;
  }
}
