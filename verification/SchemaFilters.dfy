/** The SQL Server filters of backend/app/services/schema_service.py, by the letters of the names. */
module SchemaFilters {
  import opened LetterCase
  import opened Options
  import opened Sequences
  import opened SchemaStore
  import PyText

  /** Some slice of the name is that word. */
  predicate Mentions(name: string, word: string) {
    exists i, j :: 0 <= i <= j <= |name| && SameText(name[i..j], word)
  }

  predicate Named(allowed: seq<string>, schema: string, name: string) {
    exists i :: 0 <= i < |allowed| && SameText(allowed[i], schema + "." + name)
  }

  /** The schema is dbo, the name mentions no backup, and a whitelist names the table. */
  predicate Wanted(conn: Connection, t: TableInfo) {
    conn.sqlServer ==>
      SameText(t.schema, "dbo") && !Mentions(t.name, "backup") && !Mentions(t.name, "bakup") &&
      (conn.allowed == [] || Named(conn.allowed, t.schema, t.name))
  }

  function WantedRule(conn: Connection): TableInfo -> bool {
    t => Wanted(conn, t)
  }

  lemma LowerLetters(a: char, b: char)
    ensures LowerChar(a) == LowerChar(b) <==> SameLetter(a, b)
  {
  }

  lemma LowerTexts(s: string, t: string)
    ensures Lower(s) == Lower(t) <==> SameText(s, t)
  {
    hide LowerChar, SameLetter;
    var a, b := Lower(s), Lower(t);
    assert forall i :: 0 <= i < |s| ==> a[i] == LowerChar(s[i]);
    assert forall i :: 0 <= i < |t| ==> b[i] == LowerChar(t[i]);
    if |s| == |t| {
      forall i | 0 <= i < |s| ensures a[i] == b[i] <==> SameLetter(s[i], t[i]) {
        LowerLetters(s[i], t[i]);
      }
    }
  }

  predicate SmallLetters(word: string) {
    forall i :: 0 <= i < |word| ==> 'a' <= word[i] <= 'z'
  }

  lemma SmallStays(word: string)
    requires SmallLetters(word)
    ensures Lower(word) == word
  {
  }

  lemma LowerSlice(s: string, i: nat, j: nat)
    requires i <= j <= |s|
    ensures Lower(s)[i..j] == Lower(s[i..j])
  {
  }

  lemma ContainsMeansMentions(name: string, word: string)
    requires SmallLetters(word)
    ensures Contains(Lower(name), word) <==> Mentions(name, word)
  {
    SmallStays(word);
    hide Lower, SameText;
    LowerLength(name);
    if Contains(Lower(name), word) {
      var i :| 0 <= i <= |Lower(name)| && PyText.OccursAt(Lower(name), word, i);
      LowerSlice(name, i, i + |word|);
      LowerTexts(name[i..i + |word|], word);
    }
    if Mentions(name, word) {
      var i, j :| 0 <= i <= j <= |name| && SameText(name[i..j], word);
      SameLengths(name[i..j], word);
      LowerSlice(name, i, j);
      LowerTexts(name[i..j], word);
      assert PyText.OccursAt(Lower(name), word, i);
    }
  }

  lemma LowerLength(s: string)
    ensures |Lower(s)| == |s|
  {
  }

  lemma SameLengths(s: string, t: string)
    requires SameText(s, t)
    ensures |s| == |t|
  {
  }

  lemma CacheableMeansWanted(conn: Connection, t: TableInfo)
    ensures Cacheable(conn, t) <==> Wanted(conn, t)
  {
    SmallStays("dbo");
    LowerTexts(t.schema, "dbo");
    ContainsMeansMentions(t.name, "backup");
    ContainsMeansMentions(t.name, "bakup");
    hide Lower, SameText, Contains, Mentions;
    forall i | 0 <= i < |conn.allowed|
      ensures Lower(conn.allowed[i]) == Lower(t.schema + "." + t.name) <==>
        SameText(conn.allowed[i], t.schema + "." + t.name)
    {
      LowerTexts(conn.allowed[i], t.schema + "." + t.name);
    }
  }

  /** What is cached of a listing is exactly the wanted tables, in the order listed. */
  lemma KeptIsWanted(conn: Connection, tables: seq<TableInfo>)
    ensures Kept(conn, tables) == Filter(WantedRule(conn), tables)
    ensures forall t :: t in Kept(conn, tables) <==> t in tables && Wanted(conn, t)
  {
    hide Kept, Cacheable, Wanted;
    KeptExact(conn, tables);
    forall t ensures Cacheable(conn, t) <==> Wanted(conn, t) {
      CacheableMeansWanted(conn, t);
    }
    FilterAgree(CacheableRule(conn), WantedRule(conn), tables);
  }
}
