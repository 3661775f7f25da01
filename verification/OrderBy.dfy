/** ORDER BY printing: adapters/postgres/postgres.go, `OrderByRequest`. */
module OrderBy {
  import opened Text
  import opened Ident
  import opened SqlLexer
  import opened FilterTokens

  /** One sort key: an identifier path and a direction. */
  datatype Key = Key(path: seq<string>, descending: bool)

  /** The sort key that an item of the `_order` value asks for. */
  function ReadItem(item: string): Option<Key> {
    var descending := "-" <= item;
    var field := if descending then item[1..] else item;
    if IsValid(field) then Some(Key(Path(field), descending)) else None
  }

  function ReadItems(items: seq<string>): Option<seq<Key>> {
    if items == [] then Some([])
    else match (ReadItem(items[0]), ReadItems(items[1..]))
      case (Some(key), Some(more)) => Some([key] + more)
      case _ => None
  }

  function Asked(reqOrder: string): Option<seq<Key>> { ReadItems(Split(reqOrder, ",")) }

  /** A value is accepted exactly when each of its comma-separated items, less one leading minus,
      is an identifier. */
  lemma AskedIff(reqOrder: string)
    ensures Asked(reqOrder).Some? <==>
            forall item :: item in Split(reqOrder, ",") ==> IsValid(if item != "" && item[0] == '-' then item[1..] else item)
  {
    hide IsValid, Split, ReadItem;
    var items := Split(reqOrder, ",");
    ReadItemsAre(items);
    forall item | item in items
      ensures ReadItem(item).Some? <==> IsValid(if item != "" && item[0] == '-' then item[1..] else item)
    {
      ItemAccepted(item);
    }
  }

  lemma ItemAccepted(item: string)
    ensures ReadItem(item).Some? <==> IsValid(if item != "" && item[0] == '-' then item[1..] else item)
    ensures ReadItem(item).Some? ==> (ReadItem(item).value.descending <==> item[0] == '-')
  {
    hide IsValid;
    assert "-" <= item <==> item != "" && item[0] == '-';
    if item == "" {
      assert !IsValid("") by { EmptyInvalid(); }
    }
  }

  lemma EmptyInvalid()
    ensures !IsValid("")
  {
  }

  function KeyText(key: Key): string { " " + QuotedPath(key.path) + if key.descending then " DESC" else "" }

  function KeyTexts(keys: seq<Key>): (r: seq<string>)
    ensures |r| == |keys| && forall i :: 0 <= i < |keys| ==> r[i] == KeyText(keys[i])
  {
    seq(|keys|, i requires 0 <= i < |keys| => KeyText(keys[i]))
  }

  function OrderText(keys: seq<Key>): string { " ORDER BY " + Join(KeyTexts(keys), " ,") }

  lemma {:induction false} ReadItemsAre(items: seq<string>)
    ensures ReadItems(items).Some? <==> forall i :: 0 <= i < |items| ==> ReadItem(items[i]).Some?
    ensures ReadItems(items).Some? ==>
              |ReadItems(items).value| == |items| &&
              forall i :: 0 <= i < |items| ==> ReadItem(items[i]) == Some(ReadItems(items).value[i])
  {
    hide ReadItem;
    if items != [] {
      ReadItemsAre(items[1..]);
      assert items == [items[0]] + items[1..];
      if i :| 0 <= i < |items| && ReadItem(items[i]).None? {
        assert i > 0 ==> items[1..][i - 1] == items[i];
      }
    }
  }

  method OrderByRequest(reqOrder: string) returns (r: Result<string, ()>)
    ensures r == if reqOrder == "" then Ok("")
                 else match Asked(reqOrder) case None => Err(()) case Some(keys) => Ok(OrderText(keys))
  {
    hide IsValid, QuotedPath, Split, Path, Join, KeyText, KeyTexts;
    var values := "";
    if reqOrder != "" {
      values := " ORDER BY ";
      var orderingArr := Split(reqOrder, ",");
      ReadItemsAre(orderingArr);
      ghost var keys: seq<Key> := [];
      NoKeys();
      for i := 0 to |orderingArr|
        invariant |keys| == i && forall j :: 0 <= j < i ==> ReadItem(orderingArr[j]) == Some(keys[j])
        invariant values == " ORDER BY " + Join(KeyTexts(keys), " ,") + if 0 < i < |orderingArr| then " ," else ""
      {
        var desc := false;
        var field := orderingArr[i];
        if "-" <= field {
          desc := true;
          field := field[1..];
        }
        if !IsValid(field) {
          return Err(());
        }
        var q := Quote(field);
        var quoted := q.value;
        if desc {
          quoted := quoted + " DESC";
        }
        ghost var key := Key(Path(field), desc);
        ghost var before := values;
        values := values + " " + quoted;
        assert values == before + KeyText(key) by { Spelled(before, key, quoted); }
        KeysSnoc(keys, key);
        Accumulated(" ORDER BY ", Join(KeyTexts(keys), " ,"), KeyText(key));
        keys := keys + [key];
        if i < |orderingArr| - 1 {
          values := values + " ,";
        }
      }
      assert keys == ReadItems(orderingArr).value;
      assert values == OrderText(keys) by { NothingAfter(" ORDER BY " + Join(KeyTexts(keys), " ,")); }
    }
    return Ok(values);
  }

  lemma NoKeys()
    ensures Join(KeyTexts([]), " ,") == "" && " ORDER BY " + "" + "" == " ORDER BY "
  {
  }

  lemma NothingAfter(s: string)
    ensures s + "" == s
  {
  }

  lemma Spelled(before: string, key: Key, quoted: string)
    requires quoted == QuotedPath(key.path) + if key.descending then " DESC" else ""
    ensures before + " " + quoted == before + KeyText(key)
  {
    hide QuotedPath;
    assert " " + quoted == KeyText(key);
    Associative(before, " ", quoted);
  }

  lemma KeysSnoc(keys: seq<Key>, key: Key)
    ensures Join(KeyTexts(keys + [key]), " ,") ==
            if keys == [] then KeyText(key) else Join(KeyTexts(keys), " ,") + " ," + KeyText(key)
  {
    hide KeyText;
    assert KeyTexts(keys + [key]) == KeyTexts(keys) + [KeyText(key)];
    JoinAppend(KeyTexts(keys), KeyText(key), " ,");
  }

  lemma Accumulated(head: string, joined: string, next: string)
    ensures head + joined + " ," + next == head + (joined + " ," + next)
    ensures head + "" + "" + next == head + next
    ensures forall s: string :: s + "" == s
  {
  }

  // ----- Reading the clause back -----

  const ORDER := Lexeme("ORDER", Word("order"))
  const BY := Lexeme("BY", Word("by"))
  const DESC := Lexeme("DESC", Word("desc"))

  function ReadOrder(ts: seq<Token>): Option<seq<Key>> {
    if |ts| > 2 && ts[0] == Word("order") && ts[1] == Word("by") then ReadKeys(ts[2..]) else None
  }

  function ReadKeys(ts: seq<Token>): Option<seq<Key>>
    decreases |ts|
  {
    match ReadPath(ts)
    case None => None
    case Some((path, rest)) =>
      var descending := rest != [] && rest[0] == Word("desc");
      var after := if descending then rest[1..] else rest;
      if after == [] then Some([Key(path, descending)])
      else if after[0] != Comma then None
      else match ReadKeys(after[1..]) case None => None case Some(more) => Some([Key(path, descending)] + more)
  }

  function KeyDoc(key: Key): Doc {
    var path := Cat(Gap, PathDoc(key.path));
    if key.descending then Cat(Cat(path, Gap), DESC) else path
  }

  function KeyTokens(key: Key): seq<Token> { PathTokens(key.path) + if key.descending then [Word("desc")] else [] }

  function KeysDoc(keys: seq<Key>): Doc
    requires keys != []
  {
    if |keys| == 1 then KeyDoc(keys[0]) else Cat(Cat(Cat(KeyDoc(keys[0]), Gap), COMMA), KeysDoc(keys[1..]))
  }

  function KeysTokens(keys: seq<Key>): seq<Token>
    requires keys != []
  {
    if |keys| == 1 then KeyTokens(keys[0]) else KeyTokens(keys[0]) + ([Comma] + KeysTokens(keys[1..]))
  }

  predicate HasPaths(keys: seq<Key>) { forall k :: k in keys ==> k.path != [] }

  lemma WordsRead()
    ensures Readable(ORDER) && Readable(BY) && Readable(DESC)
  {
    assert Lower("ORDER") == "order" && Lower("BY") == "by" && Lower("DESC") == "desc";
  }

  lemma {:induction false} KeyShape(p: Doc, descending: bool)
    requires Readable(p)
    ensures var g := Cat(Gap, p);
      var d := if descending then Cat(Cat(g, Gap), DESC) else g;
      && Readable(d) && Render(d) == " " + Render(p) + (if descending then " DESC" else "")
      && Tokens(d) == Tokens(p) + (if descending then [Word("desc")] else []) && First(d) == Gap
  {
    hide Render, Tokens, Readable, First, Last;
    WordsRead();
    LeafFacts(Gap);
    LeafFacts(DESC);
    CatFacts(Gap, p);
    var g := Cat(Gap, p);
    assert [] + Tokens(p) == Tokens(p) && Tokens(p) + [] == Tokens(p);
    WithGap(g);
    CatFacts(Cat(g, Gap), DESC);
    CatFacts(g, Gap);
    Associative(" " + Render(p), " ", "DESC");
    assert " " + "DESC" == " DESC";
  }

  lemma {:induction false} KeyReads(key: Key)
    requires key.path != []
    ensures var d := KeyDoc(key); Readable(d) && Render(d) == KeyText(key) && Tokens(d) == KeyTokens(key) && First(d) == Gap
  {
    hide PathDoc, PathTokens, Render, Tokens, Readable, First, QuotedPath;
    PathDocReads(key.path);
    KeyShape(PathDoc(key.path), key.descending);
  }

  lemma {:induction false} KeyThen(a: Doc, more: Doc)
    requires Readable(a) && Readable(more)
    ensures var d := Cat(Cat(Cat(a, Gap), COMMA), more);
      && Readable(d) && Render(d) == Render(a) + " ," + Render(more) && Tokens(d) == Tokens(a) + ([Comma] + Tokens(more))
      && (First(a) == Gap ==> First(d) == Gap)
  {
    hide Render, Tokens, Readable, First, Last;
    WithGap(a);
    CatFacts(a, Gap);
    LeafFacts(COMMA);
    CatFacts(Cat(a, Gap), COMMA);
    CatFacts(Cat(Cat(a, Gap), COMMA), more);
    Associative(Render(a), " ", ",");
    assert " " + "," == " ,";
    Associative(Tokens(a), [Comma], Tokens(more));
  }

  lemma {:induction false} KeysRead(keys: seq<Key>)
    requires keys != [] && HasPaths(keys)
    ensures var d := KeysDoc(keys);
      && Readable(d) && Render(d) == Join(KeyTexts(keys), " ,") && Tokens(d) == KeysTokens(keys) && First(d) == Gap
  {
    hide KeyDoc, KeyTokens, KeyText, Render, Tokens, Readable, First;
    assert keys[0] in keys;
    KeyReads(keys[0]);
    if |keys| == 1 {
      assert KeyTexts(keys) == [KeyText(keys[0])];
    } else {
      assert forall k :: k in keys[1..] ==> k in keys;
      KeysRead(keys[1..]);
      KeyThen(KeyDoc(keys[0]), KeysDoc(keys[1..]));
      assert KeyTexts(keys)[1..] == KeyTexts(keys[1..]);
    }
  }

  lemma {:induction false} ReadKeysTokens(keys: seq<Key>)
    requires keys != [] && HasPaths(keys)
    ensures ReadKeys(KeysTokens(keys)) == Some(keys)
  {
    hide PathTokens, ReadPath;
    var key := keys[0];
    assert key in keys;
    var mark := if key.descending then [Word("desc")] else [];
    if |keys| == 1 {
      ReadPathTokens(key.path, mark);
      assert keys == [key];
      assert mark != [] ==> mark[1..] == [];
    } else {
      assert forall k :: k in keys[1..] ==> k in keys;
      var more := KeysTokens(keys[1..]);
      ReadKeysTokens(keys[1..]);
      ReadPathTokens(key.path, mark + ([Comma] + more));
      Associative(PathTokens(key.path), mark, [Comma] + more);
      assert key.descending ==> (mark + ([Comma] + more))[1..] == [Comma] + more;
      assert !key.descending ==> mark + ([Comma] + more) == [Comma] + more;
      assert ([Comma] + more)[1..] == more;
      assert keys == [key] + keys[1..];
    }
  }

  /** ` ORDER BY ` before the keys. */
  function ClauseDoc(keys: Doc): Doc { Cat(Cat(Cat(Cat(Cat(Gap, ORDER), Gap), BY), Gap), keys) }

  lemma {:induction false} ClauseReads(keys: Doc)
    requires Readable(keys) && First(keys) == Gap
    ensures var d := ClauseDoc(keys);
      Readable(d) && Render(d) == " ORDER BY " + Render(keys) && Tokens(d) == [Word("order"), Word("by")] + Tokens(keys)
  {
    WordsRead();
    LeafFacts(Gap);
    LeafFacts(ORDER);
    LeafFacts(BY);
    var order := Cat(Gap, ORDER);
    CatFacts(Gap, ORDER);
    Spaced(order, BY);
    var both := Cat(Cat(order, Gap), BY);
    WithGap(both);
    CatFacts(Cat(both, Gap), keys);
    assert " " + "ORDER" + " " + "BY" + " " == " ORDER BY ";
    assert [] + [Word("order")] + [Word("by")] == [Word("order"), Word("by")];
  }

  lemma AskedHasPaths(reqOrder: string)
    requires Asked(reqOrder).Some?
    ensures Asked(reqOrder).value != [] && HasPaths(Asked(reqOrder).value)
  {
    ReadItemsAre(Split(reqOrder, ","));
  }

  /** Reading the printed clause gives, in order, the path and direction of each item asked for. */
  lemma OrderByRoundTrip(reqOrder: string)
    requires Asked(reqOrder).Some?
    ensures var ts := Lex(OrderText(Asked(reqOrder).value)); ts.Some? && ReadOrder(ts.value) == Asked(reqOrder)
  {
    hide KeysDoc, KeysTokens, ReadKeys, Lex, Render, Tokens, Readable, First, Asked;
    var keys := Asked(reqOrder).value;
    AskedHasPaths(reqOrder);
    KeysRead(keys);
    ClauseReads(KeysDoc(keys));
    LexRender(ClauseDoc(KeysDoc(keys)));
    ReadKeysTokens(keys);
    var more := KeysTokens(keys);
    assert ([Word("order"), Word("by")] + more)[2..] == more;
    assert more != [] by { SomeTokens(keys); }
  }

  lemma SomeTokens(keys: seq<Key>)
    requires keys != [] && HasPaths(keys)
    ensures KeysTokens(keys) != []
  {
    assert keys[0] in keys;
  }

  /** The request value that asks for the keys. */
  function ItemText(key: Key): string { (if key.descending then "-" else "") + Join(key.path, ".") }

  function ItemTexts(keys: seq<Key>): (r: seq<string>)
    ensures |r| == |keys| && forall i :: 0 <= i < |keys| ==> r[i] == ItemText(keys[i])
  {
    seq(|keys|, i requires 0 <= i < |keys| => ItemText(keys[i]))
  }

  /** Nothing of an accepted value is lost: it is what its keys spell. */
  lemma AskedSpells(reqOrder: string)
    requires Asked(reqOrder).Some?
    ensures Join(ItemTexts(Asked(reqOrder).value), ",") == reqOrder
  {
    hide IsValid;
    var items, keys := Split(reqOrder, ","), Asked(reqOrder).value;
    ReadItemsAre(items);
    JoinSplit(reqOrder, ',');
    forall i | 0 <= i < |items|
      ensures ItemTexts(keys)[i] == items[i]
    {
      ItemSpells(items[i]);
    }
    assert ItemTexts(keys) == items;
  }

  lemma ItemSpells(item: string)
    requires ReadItem(item).Some?
    ensures ItemText(ReadItem(item).value) == item
  {
    hide IsValid;
    var field := if "-" <= item then item[1..] else item;
    JoinSplit(field, '.');
    assert item == (if "-" <= item then "-" else "") + field;
  }

  /** Different accepted values print different clauses. */
  lemma OrderByInjective(a: string, b: string)
    requires Asked(a).Some? && Asked(b).Some? && OrderText(Asked(a).value) == OrderText(Asked(b).value)
    ensures a == b
  {
    hide Asked, OrderText, ReadOrder, Lex;
    OrderByRoundTrip(a);
    OrderByRoundTrip(b);
    AskedSpells(a);
    AskedSpells(b);
  }
}
