/**
 * Password hashing shared by AdminService and DoctorService: the stored hash
 * is Base64(SHA-256(UTF-8(password ++ salt))). `digest` stands for the
 * composition Base64 . SHA-256 . UTF-8, a deterministic function of a string.
 */
module Passwords {

  function HashPassword(digest: string -> string, password: string, salt: string): string
  {
    digest(password + salt)
  }

  /**
   * The hash sees only the concatenation: no separator is placed between
   * password and salt, so (password, salt) pairs with the same concatenation
   * hash alike.
   */
  lemma HashSeesOnlyConcatenation(digest: string -> string, p1: string, s1: string, p2: string, s2: string)
    requires p1 + s1 == p2 + s2
    ensures HashPassword(digest, p1, s1) == HashPassword(digest, p2, s2)
  {
  }

  /**
   * So moving the last character of any non-empty password to the front of
   * its salt leaves the hash unchanged.
   */
  lemma ShiftedSplitHashesAlike(digest: string -> string, p: string, s: string)
    requires |p| > 0
    ensures HashPassword(digest, p, s) == HashPassword(digest, p[..|p| - 1], p[|p| - 1..] + s)
  {
    assert p[..|p| - 1] + (p[|p| - 1..] + s) == p + s;
  }
}
