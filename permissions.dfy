// User permissions: a 16-bit mask of four independent flags
// (BaseLibrary/UserPermissions.h, BaseLibrary/UserPermissions.cpp).

module Permissions {
  import opened Wire

  /** `enum class UserPermissions : uint16_t`: the value is its 16-bit pattern. */
  type Mask = bv16

  /** The named values of the enumeration. */
  const None: Mask := 0
  const View: Mask := 1
  const Insert: Mask := 2
  const Edit: Mask := 4
  const Delete: Mask := 8
  const NormalUser: Mask := View
  const SuperUser: Mask := 15

  /** `operator|`: bitwise or of the underlying 16-bit values. */
  function Or(a: Mask, b: Mask): (c: Mask)
    ensures c & a == a && c & b == b
  {
    a | b
  }

  /** `operator&`: bitwise and of the underlying 16-bit values. */
  function And(a: Mask, b: Mask): (c: Mask)
    ensures c | a == a && c | b == b
  {
    a & b
  }

  /** `(permissions & flag) != None`. */
  predicate Has(p: Mask, flag: Mask)
  {
    And(p, flag) != None
  }

  /** Each named flag is its own single bit, and the roles are the unions the header writes. */
  lemma FlagsAreBits()
    ensures View == 1 && Insert == 2 && Edit == 4 && Delete == 8
    ensures And(View, Insert) == None && And(View, Edit) == None && And(View, Delete) == None
    ensures And(Insert, Edit) == None && And(Insert, Delete) == None && And(Edit, Delete) == None
    ensures NormalUser == View
    ensures SuperUser == Or(Or(Or(NormalUser, Insert), Edit), Delete)
  {
  }

  /** The letters `getPermissionsString` may emit, in the order it tests their flags. */
  const Letters: seq<(Mask, char)> := [(Insert, 'C'), (View, 'R'), (Edit, 'U'), (Delete, 'D')]

  /** The characters a table can spell. */
  function Alphabet(table: seq<(Mask, char)>): set<char>
  {
    set i | 0 <= i < |table| :: table[i].1
  }

  /** The letters of `table` whose flag is set in p, in table order. */
  function Spelled(p: Mask, table: seq<(Mask, char)>): (s: string)
    ensures |s| <= |table|
    ensures forall c :: c in s ==> c in Alphabet(table)
  {
    if table == [] then ""
    else
      var rest := Spelled(p, table[1..]);
      assert forall c :: c in Alphabet(table[1..]) ==> c in Alphabet(table) by {
        forall c | c in Alphabet(table[1..]) ensures c in Alphabet(table) {
          var i :| 0 <= i < |table[1..]| && table[1..][i].1 == c;
          assert table[i + 1].1 == c;
        }
      }
      (if Has(p, table[0].0) then [table[0].1] else "") + rest
  }

  /** What `getPermissionsString` returns: "NONE" for no permission, else the CRUD letters held. */
  function PermissionsText(p: Mask): (s: string)
    ensures p == None <==> s == "NONE"
  {
    if p == None then "NONE"
    else
      var s := Spelled(p, Letters);
      assert 'N' !in Alphabet(Letters) by {
        forall i | 0 <= i < |Letters| ensures Letters[i].1 != 'N' {
        }
      }
      assert "NONE"[0] !in Alphabet(Letters);
      s
  }

  /** For a non-empty mask the text is one optional letter per flag, in C, R, U, D order. */
  lemma TextLetters(p: Mask)
    requires p != None
    ensures PermissionsText(p) == (if Has(p, Insert) then "C" else "") + ((if Has(p, View) then "R" else "")
                                  + ((if Has(p, Edit) then "U" else "") + (if Has(p, Delete) then "D" else "")))
  {
    var t := Letters;
    assert t[0] == (Insert, 'C') && t[1..][0] == (View, 'R');
    assert t[1..][1..][0] == (Edit, 'U') && t[1..][1..][1..][0] == (Delete, 'D');
    assert t[1..][1..][1..][1..] == [];
    assert Spelled(p, t[1..][1..][1..]) == (if Has(p, Delete) then "D" else "");
    assert Spelled(p, t[1..][1..]) == (if Has(p, Edit) then "U" else "") + (if Has(p, Delete) then "D" else "");
    assert Spelled(p, t[1..]) == (if Has(p, View) then "R" else "") + Spelled(p, t[1..][1..]);
  }

  /** `getPermissionsString`, appending one letter per flag held. */
  method PermissionsString(p: Mask) returns (s: string)
    ensures s == PermissionsText(p)
  {
    if p == None {
      return "NONE";
    }
    s := "";
    if And(p, Insert) != None {
      s := s + "C";
    }
    if And(p, View) != None {
      s := s + "R";
    }
    if And(p, Edit) != None {
      s := s + "U";
    }
    if And(p, Delete) != None {
      s := s + "D";
    }
    TextLetters(p);
  }

  /** A non-empty mask holds a letter exactly when it holds that letter's flag. */
  lemma LettersMatchFlags(p: Mask)
    requires p != None
    ensures 'C' in PermissionsText(p) <==> Has(p, Insert)
    ensures 'R' in PermissionsText(p) <==> Has(p, View)
    ensures 'U' in PermissionsText(p) <==> Has(p, Edit)
    ensures 'D' in PermissionsText(p) <==> Has(p, Delete)
  {
    TextLetters(p);
  }

  /** The text of the two roles, and of a non-empty mask with none of the four flags. */
  lemma RoleTexts(p: Mask)
    requires p != None && And(p, SuperUser) == None
    ensures PermissionsText(SuperUser) == "CRUD"
    ensures PermissionsText(NormalUser) == "R"
    ensures PermissionsText(p) == ""
  {
    TextLetters(SuperUser);
    TextLetters(NormalUser);
    TextLetters(p);
  }

  /** The four flags of a mask are the bits of its low nibble. */
  lemma LowNibble(p: Mask)
    ensures And(p, SuperUser) == Or(Or(And(p, View), And(p, Insert)), Or(And(p, Edit), And(p, Delete)))
    ensures And(p, View) == (if Has(p, View) then View else None)
    ensures And(p, Insert) == (if Has(p, Insert) then Insert else None)
    ensures And(p, Edit) == (if Has(p, Edit) then Edit else None)
    ensures And(p, Delete) == (if Has(p, Delete) then Delete else None)
  {
  }

  /** Two non-empty masks read the same exactly when they agree on the four flags. */
  lemma TextDeterminesFlags(p: Mask, q: Mask)
    requires p != None && q != None
    ensures PermissionsText(p) == PermissionsText(q) <==> And(p, SuperUser) == And(q, SuperUser)
  {
    LettersMatchFlags(p);
    LettersMatchFlags(q);
    LowNibble(p);
    LowNibble(q);
    if And(p, SuperUser) == And(q, SuperUser) {
      assert Has(p, Insert) == Has(q, Insert) && Has(p, View) == Has(q, View) by {
        assert And(p, Insert) == And(And(p, SuperUser), Insert) && And(q, Insert) == And(And(q, SuperUser), Insert);
        assert And(p, View) == And(And(p, SuperUser), View) && And(q, View) == And(And(q, SuperUser), View);
      }
      assert Has(p, Edit) == Has(q, Edit) && Has(p, Delete) == Has(q, Delete) by {
        assert And(p, Edit) == And(And(p, SuperUser), Edit) && And(q, Edit) == And(And(q, SuperUser), Edit);
        assert And(p, Delete) == And(And(p, SuperUser), Delete) && And(q, Delete) == And(And(q, SuperUser), Delete);
      }
      TextLetters(p);
      TextLetters(q);
    }
  }
}
