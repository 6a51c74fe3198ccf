/** The seventeen records the store starts with, and what the store answers
    about them. */
module SeedStore {
  import opened Wrappers
  import opened Text
  import opened Seqs
  import opened UsersApi

  /** The seed records, one constant each. */
  const U1 := UserDto("u1", "Ivan Z.", true)
  const U2 := UserDto("u2", "Mikhail X.", true)
  const U3 := UserDto("u3", "Ivan C.", true)
  const U4 := UserDto("u4", "Petr V.", true)
  const U5 := UserDto("u5", "Artyom B.", true)
  const U6 := UserDto("u6", "Gleb N.", true)
  const U7 := UserDto("u7", "Anton M.", true)
  const U8 := UserDto("u8", "Semyon A.", true)
  const U9 := UserDto("u9", "Arseniy S.", true)
  const U10 := UserDto("u10", "Nick D.", true)
  const U11 := UserDto("u11", "Alex F.", true)
  const U12 := UserDto("u12", "Kirill G.", false)
  const U13 := UserDto("u13", "Stas H.", true)
  const U14 := UserDto("u14", "Yuriy J.", true)
  const U15 := UserDto("u15", "Roman K.", true)
  const U16 := UserDto("u16", "Ivan L.", true)
  const U17 := UserDto("u17", "Ivan Q.", true)

  /** The initial contents of the store (`DB`). */
  const Seed: seq<UserDto> := [
    U1, U2, U3, U4, U5, U6, U7, U8, U9,
    U10, U11, U12, U13, U14, U15, U16, U17
  ]

  lemma SeedShape()
    ensures |Seed| == 17
    ensures UniqueIds(Seed)
  {
  }

  /** Page 4 at five per page, with no search, holds the last two records. */
  lemma SeedLastPage()
    ensures GetList(Seed, ListRequest(4, None, 5)) == UserListResponse(17, Seed[15..])
  {
  }

  /** A record whose name starts with "Ivan" matches the search "Ivan". */
  lemma IvanMatches(u: UserDto)
    requires "Ivan" <= u.userName
    ensures NameTest("Ivan")(u)
  {
    assert Lower("Ivan") == "ivan";
    assert Lower(u.userName)[..4] == Lower("Ivan");
  }

  /** A record whose name lacks both cases of one letter of "ivan" does not
      match the search "Ivan". */
  lemma IvanMisses(u: UserDto, k: int)
    requires 0 <= k < 4 && Lacks(u.userName, "ivan"[k]) && Lacks(u.userName, "IVAN"[k])
    ensures !NameTest("Ivan")(u)
  {
    assert Lower("Ivan") == "ivan";
    LowerLacksLetter(u.userName, "ivan"[k]);
    MissingCharExcludes(Lower(u.userName), "ivan", k);
  }

  /** The names of the records the search "Ivan" does not select each lack
      both cases of one of its letters. */
  lemma SeedMissesLackLetterA()
    ensures Lacks(U2.userName, 'v') && Lacks(U2.userName, 'V')
    ensures Lacks(U4.userName, 'i') && Lacks(U4.userName, 'I')
    ensures Lacks(U5.userName, 'i') && Lacks(U5.userName, 'I')
    ensures Lacks(U6.userName, 'i') && Lacks(U6.userName, 'I')
    ensures Lacks(U7.userName, 'i') && Lacks(U7.userName, 'I')
  {
  }

  lemma SeedMissesLackLetterB()
    ensures Lacks(U8.userName, 'i') && Lacks(U8.userName, 'I')
    ensures Lacks(U9.userName, 'v') && Lacks(U9.userName, 'V')
    ensures Lacks(U10.userName, 'v') && Lacks(U10.userName, 'V')
    ensures Lacks(U11.userName, 'i') && Lacks(U11.userName, 'I')
  {
  }

  lemma SeedMissesLackLetterC()
    ensures Lacks(U12.userName, 'v') && Lacks(U12.userName, 'V')
    ensures Lacks(U13.userName, 'i') && Lacks(U13.userName, 'I')
    ensures Lacks(U14.userName, 'v') && Lacks(U14.userName, 'V')
    ensures Lacks(U15.userName, 'i') && Lacks(U15.userName, 'I')
  {
  }

  /** In a store shaped like the seed (names starting with "Ivan" at positions
      0, 2, 15 and 16, every other name lacking a letter of "ivan"), the search
      "Ivan" selects exactly the records at those four positions.
      This and the next two lemmas are about the seed only; they take the store
      as a parameter, with the seed's literal facts as requires, so that no
      proof has to unfold the seventeen literal names at once. */
  lemma IvanVerdicts(db: seq<UserDto>)
    requires |db| == 17
    requires "Ivan" <= db[0].userName
    requires Lacks(db[1].userName, 'v') && Lacks(db[1].userName, 'V')
    requires "Ivan" <= db[2].userName
    requires Lacks(db[3].userName, 'i') && Lacks(db[3].userName, 'I')
    requires Lacks(db[4].userName, 'i') && Lacks(db[4].userName, 'I')
    requires Lacks(db[5].userName, 'i') && Lacks(db[5].userName, 'I')
    requires Lacks(db[6].userName, 'i') && Lacks(db[6].userName, 'I')
    requires Lacks(db[7].userName, 'i') && Lacks(db[7].userName, 'I')
    requires Lacks(db[8].userName, 'v') && Lacks(db[8].userName, 'V')
    requires Lacks(db[9].userName, 'v') && Lacks(db[9].userName, 'V')
    requires Lacks(db[10].userName, 'i') && Lacks(db[10].userName, 'I')
    requires Lacks(db[11].userName, 'v') && Lacks(db[11].userName, 'V')
    requires Lacks(db[12].userName, 'i') && Lacks(db[12].userName, 'I')
    requires Lacks(db[13].userName, 'v') && Lacks(db[13].userName, 'V')
    requires Lacks(db[14].userName, 'i') && Lacks(db[14].userName, 'I')
    requires "Ivan" <= db[15].userName
    requires "Ivan" <= db[16].userName
    ensures NameTest("Ivan")(db[0])
    ensures !NameTest("Ivan")(db[1])
    ensures NameTest("Ivan")(db[2])
    ensures !NameTest("Ivan")(db[3])
    ensures !NameTest("Ivan")(db[4])
    ensures !NameTest("Ivan")(db[5])
    ensures !NameTest("Ivan")(db[6])
    ensures !NameTest("Ivan")(db[7])
    ensures !NameTest("Ivan")(db[8])
    ensures !NameTest("Ivan")(db[9])
    ensures !NameTest("Ivan")(db[10])
    ensures !NameTest("Ivan")(db[11])
    ensures !NameTest("Ivan")(db[12])
    ensures !NameTest("Ivan")(db[13])
    ensures !NameTest("Ivan")(db[14])
    ensures NameTest("Ivan")(db[15])
    ensures NameTest("Ivan")(db[16])
  {
    IvanMatches(db[0]);
    IvanMisses(db[1], 1);
    IvanMatches(db[2]);
    IvanMisses(db[3], 0);
    IvanMisses(db[4], 0);
    IvanMisses(db[5], 0);
    IvanMisses(db[6], 0);
    IvanMisses(db[7], 0);
    IvanMisses(db[8], 1);
    IvanMisses(db[9], 1);
    IvanMisses(db[10], 0);
    IvanMisses(db[11], 1);
    IvanMisses(db[12], 0);
    IvanMisses(db[13], 1);
    IvanMisses(db[14], 0);
    IvanMatches(db[15]);
    IvanMatches(db[16]);
  }

  /** The seed's pattern of verdicts, first three records: pass, fail, pass. */
  lemma PatternHead(db: seq<UserDto>, keep: UserDto -> bool)
    requires |db| == 17
    requires keep(db[0]) && !keep(db[1]) && keep(db[2])
    ensures Filter(db[..3], keep) == [db[0], db[2]]
  {
    var head := db[..3];
    assert head[3..] == [];
    FilterSuffixStep(head, 2, keep);
    FilterSuffixStep(head, 1, keep);
    FilterSuffixStep(head, 0, keep);
    assert head[0..] == head;
  }

  /** The seed's pattern of verdicts, records 3 to 14: all fail. */
  lemma PatternMiddle(db: seq<UserDto>, keep: UserDto -> bool)
    requires |db| == 17
    requires !keep(db[3])
    requires !keep(db[4])
    requires !keep(db[5])
    requires !keep(db[6])
    requires !keep(db[7])
    requires !keep(db[8])
    requires !keep(db[9])
    requires !keep(db[10])
    requires !keep(db[11])
    requires !keep(db[12])
    requires !keep(db[13])
    requires !keep(db[14])
    ensures Filter(db[3..15], keep) == []
  {
    forall i | 3 <= i < 15 ensures !keep(db[i]) {
      if i == 3 { } else if i == 4 { } else if i == 5 { } else if i == 6 { } else if i == 7 { } else if i == 8 { } else if i == 9 { } else if i == 10 { } else if i == 11 { } else if i == 12 { } else if i == 13 { }
    }
    var middle := db[3..15];
    forall i | 0 <= i < |middle| ensures !keep(middle[i]) {
      assert middle[i] == db[i + 3];
    }
    FilterDropsAll(middle, keep);
  }

  /** The three parts of the pattern put together. */
  lemma PatternJoin(db: seq<UserDto>, keep: UserDto -> bool)
    requires |db| == 17
    requires Filter(db[..3], keep) == [db[0], db[2]]
    requires Filter(db[3..15], keep) == []
    requires Filter(db[15..], keep) == [db[15], db[16]]
    ensures Filter(db, keep) == [db[0], db[2], db[15], db[16]]
  {
    assert db == db[..3] + db[3..15] + db[15..];
    FilterAppend3(db[..3], db[3..15], db[15..], keep);
  }

  /** Any test with the seed's pattern of verdicts (pass at positions 0, 2,
      15 and 16, fail elsewhere) keeps exactly those four records, in order. */
  lemma {:induction false} SeedPatternFilter(db: seq<UserDto>, keep: UserDto -> bool)
    requires |db| == 17
    requires keep(db[0])
    requires !keep(db[1])
    requires keep(db[2])
    requires !keep(db[3])
    requires !keep(db[4])
    requires !keep(db[5])
    requires !keep(db[6])
    requires !keep(db[7])
    requires !keep(db[8])
    requires !keep(db[9])
    requires !keep(db[10])
    requires !keep(db[11])
    requires !keep(db[12])
    requires !keep(db[13])
    requires !keep(db[14])
    requires keep(db[15])
    requires keep(db[16])
    ensures Filter(db, keep) == [db[0], db[2], db[15], db[16]]
  {
    PatternHead(db, keep);
    PatternMiddle(db, keep);
    FilterKeepsAll(db[15..], keep);
    PatternJoin(db, keep);
  }

  /** A store shaped like the seed keeps the records at positions 0, 2, 15
      and 16 for the search "Ivan". */
  lemma IvanSearch(db: seq<UserDto>)
    requires |db| == 17
    requires "Ivan" <= db[0].userName
    requires Lacks(db[1].userName, 'v') && Lacks(db[1].userName, 'V')
    requires "Ivan" <= db[2].userName
    requires Lacks(db[3].userName, 'i') && Lacks(db[3].userName, 'I')
    requires Lacks(db[4].userName, 'i') && Lacks(db[4].userName, 'I')
    requires Lacks(db[5].userName, 'i') && Lacks(db[5].userName, 'I')
    requires Lacks(db[6].userName, 'i') && Lacks(db[6].userName, 'I')
    requires Lacks(db[7].userName, 'i') && Lacks(db[7].userName, 'I')
    requires Lacks(db[8].userName, 'v') && Lacks(db[8].userName, 'V')
    requires Lacks(db[9].userName, 'v') && Lacks(db[9].userName, 'V')
    requires Lacks(db[10].userName, 'i') && Lacks(db[10].userName, 'I')
    requires Lacks(db[11].userName, 'v') && Lacks(db[11].userName, 'V')
    requires Lacks(db[12].userName, 'i') && Lacks(db[12].userName, 'I')
    requires Lacks(db[13].userName, 'v') && Lacks(db[13].userName, 'V')
    requires Lacks(db[14].userName, 'i') && Lacks(db[14].userName, 'I')
    requires "Ivan" <= db[15].userName
    requires "Ivan" <= db[16].userName
    ensures Filter(db, NameTest("Ivan")) == [db[0], db[2], db[15], db[16]]
  {
    IvanVerdicts(db);
    SeedPatternFilter(db, NameTest("Ivan"));
  }

  /** The seed's names follow the pattern `IvanSearch` needs. */
  lemma SeedIvanPositions()
    ensures Filter(Seed, NameTest("Ivan")) == [Seed[0], Seed[2], Seed[15], Seed[16]]
  {
    SeedMissesLackLetterA();
    SeedMissesLackLetterB();
    SeedMissesLackLetterC();
    IvanSearch(Seed);
  }

  /** The seed records the name test for "Ivan" keeps. */
  lemma SeedIvanFilter()
    ensures Filter(Seed, NameTest("Ivan")) == [U1, U3, U16, U17]
  {
    SeedIvanPositions();
  }

  /** Searching "Ivan" matches four records: Ivan Z., Ivan C., Ivan L. and
      Ivan Q., in store order. */
  lemma SeedSearchIvan()
    ensures Filtered(Seed, Some("Ivan")) == [U1, U3, U16, U17]
  {
    SeedIvanFilter();
  }

  /** All four fit on the first page, which reports a total of 4. */
  lemma SeedSearchIvanPage()
    ensures GetList(Seed, ListRequest(1, Some("Ivan"), 5)) == UserListResponse(4, [U1, U3, U16, U17])
  {
    SeedSearchIvan();
    FirstPageShowsAll(Seed, ListRequest(1, Some("Ivan"), 5));
  }
}
