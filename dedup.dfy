/**
 * `generate_hash`: the deduplication key of a transaction is the digest of
 * the text `date|description|amount|currency`.
 */
module Dedup {
  import opened Text

  /** The hash function (MD5 hex digest in the source). The model assumes only
      that it is a function: the same text always gives the same digest. */
  type Digest = string -> string

  /** The text that is hashed: the four fields joined by `|` in the fixed
      order date, description, amount, currency. */
  function Preimage(date: string, description: string, amount: int, currency: string): string {
    Join([date, description, IntText(amount), currency], "|")
  }

  /** `generate_hash(date, description, amount, currency)`: the digest of
      the four fields with `|` between them. */
  function GenerateHash(md5: Digest, date: string, description: string, amount: int, currency: string): (key: string)
    ensures key == md5(date + "|" + description + "|" + IntText(amount) + "|" + currency)
  {
    PreimageText(date, description, amount, currency);
    md5(Preimage(date, description, amount, currency))
  }

  /** The pre-image is the four fields, in order, with `|` between them. */
  lemma PreimageText(date: string, description: string, amount: int, currency: string)
    ensures Preimage(date, description, amount, currency)
         == date + "|" + description + "|" + IntText(amount) + "|" + currency
  {
    var parts := [date, description, IntText(amount), currency];
    assert parts[1..][1..][1..] == [currency];
    assert parts[1..][1..] == [IntText(amount), currency];
    assert parts[1..] == [description, IntText(amount), currency];
    var tail := IntText(amount) + "|" + currency;
    assert Join(parts[1..][1..], "|") == tail;
    assert Join(parts[1..], "|") == description + "|" + tail;
    assert Join(parts, "|") == date + "|" + (description + "|" + tail);
  }

  /** When no field contains `|`, splitting the pre-image on `|` gives the
      fields back. */
  lemma PreimageFields(date: string, description: string, amount: int, currency: string)
    requires '|' !in date && '|' !in description && '|' !in currency
    ensures Split(Preimage(date, description, amount, currency), '|')
         == [date, description, IntText(amount), currency]
  {
    JoinSplit([date, description, IntText(amount), currency], '|');
  }

  /** Under the same condition the pre-image determines the four fields, so
      two rows share a pre-image only when they agree on all four. */
  lemma PreimageInjective(d1: string, s1: string, a1: int, c1: string,
                          d2: string, s2: string, a2: int, c2: string)
    requires '|' !in d1 && '|' !in s1 && '|' !in c1
    requires '|' !in d2 && '|' !in s2 && '|' !in c2
    ensures Preimage(d1, s1, a1, c1) == Preimage(d2, s2, a2, c2)
        <==> d1 == d2 && s1 == s2 && a1 == a2 && c1 == c2
  {
    PreimageFields(d1, s1, a1, c1);
    PreimageFields(d2, s2, a2, c2);
    IntTextInjective(a1, a2);
  }

  /** Without that condition keys can collide: moving `|amount` from the end
      of the description to the front of the currency gives another row
      with the same pre-image, and hence the same key. */
  lemma SeparatorCollision(md5: Digest, date: string, description: string, a: int, b: int, currency: string)
    ensures Preimage(date, description + "|" + IntText(a), b, currency)
         == Preimage(date, description, a, IntText(b) + "|" + currency)
    ensures GenerateHash(md5, date, description + "|" + IntText(a), b, currency)
         == GenerateHash(md5, date, description, a, IntText(b) + "|" + currency)
  {
    PreimageText(date, description + "|" + IntText(a), b, currency);
    PreimageText(date, description, a, IntText(b) + "|" + currency);
    Regroup(date + "|", description, IntText(a), IntText(b), currency);
  }

  lemma Regroup(p: string, d: string, x: string, y: string, c: string)
    ensures p + (d + "|" + x) + "|" + y + "|" + c == p + d + "|" + x + "|" + (y + "|" + c)
  {
  }

  /** For instance `("a|1", 2, "USD")` and `("a", 1, "2|USD")`. */
  lemma SeparatorCollisionExample(md5: Digest)
    ensures GenerateHash(md5, "2024-01-31", "a" + "|" + "1", 2, "USD")
         == GenerateHash(md5, "2024-01-31", "a", 1, "2" + "|" + "USD")
  {
    assert IntText(1) == "1" && IntText(2) == "2";
    SeparatorCollision(md5, "2024-01-31", "a", 1, 2, "USD");
  }
}
