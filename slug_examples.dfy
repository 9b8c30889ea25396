/**
 * The slug rule worked out on the names the tech-stack widget's doc comment
 * and table are about. Each stage of the rule on each literal is its own
 * small lemma (one literal computation per proof keeps the solver's work
 * small), then `Steps` chains the stages.
 */
module SlugExamples {
  import opened JsStrings
  import opened TechIconUrl

  /** The slug is the four stages of the rule applied in order. */
  lemma Steps(name: string, trimmed: string, lower: string, compact: string, r: string)
    requires Trim(BeforeFirst(name, '/')) == trimmed
    requires ToLower(trimmed) == lower
    requires RemoveWhitespace(lower) == compact
    requires ReplaceDots(compact) == r
    ensures Slug(name) == r
  {
  }

  lemma NoWhitespaceIn(s: string)
    requires NoWhitespace(s)
    ensures Trim(BeforeFirst(s, '/')) == s || '/' in s
    ensures RemoveWhitespace(s) == s
  {
    TrimWithin(s);
    RemoveWhitespaceWithoutWhitespace(s);
  }

  // "AWS"

  lemma AwsClean() ensures NoWhitespace("AWS") && NoWhitespace("aws") && '/' !in "AWS" { }
  lemma AwsLower() ensures ToLower("AWS") == "aws" { }

  lemma AwsSlug()
    ensures Slug("AWS") == "aws"
  {
    AwsClean();
    NoWhitespaceIn("AWS");
    NoWhitespaceIn("aws");
    AwsLower();
    Steps("AWS", "AWS", "aws", "aws", "aws");
  }

  // "Redux / Redux Toolkit"

  lemma ReduxSplit() ensures "Redux / Redux Toolkit" == "Redux " + ['/'] + " Redux Toolkit" { }
  lemma ReduxPadded() ensures "Redux " == "Redux" + [' '] && NoWhitespace("Redux") { }
  lemma ReduxLower() ensures ToLower("Redux") == "redux" && NoWhitespace("redux") { }

  lemma ReduxHead()
    ensures BeforeFirst("Redux / Redux Toolkit", '/') == "Redux "
  {
    ReduxSplit();
    BeforeFirstStops("Redux ", '/', " Redux Toolkit");
  }

  lemma ReduxTrim()
    ensures Trim("Redux ") == "Redux"
  {
    ReduxPadded();
    TrimEndDrop("Redux", ' ');
  }

  lemma ReduxSlug()
    ensures Slug("Redux / Redux Toolkit") == "redux"
  {
    ReduxHead();
    ReduxTrim();
    ReduxLower();
    NoWhitespaceIn("redux");
    Steps("Redux / Redux Toolkit", "Redux", "redux", "redux", "redux");
  }

  // "Socket.IO"

  lemma SocketIoClean() ensures NoWhitespace("Socket.IO") && NoWhitespace("socket.io") && '/' !in "Socket.IO" { }
  lemma SocketIoLower() ensures ToLower("Socket.IO") == "socket.io" { }
  lemma SocketIoSplit() ensures "socket.io" == "socket" + "." + "io" { }
  lemma SocketIoParts() ensures ReplaceDots("socket") == "socket" && ReplaceDots("io") == "io" { }
  lemma DotSpelled() ensures ReplaceDots(".") == "dot" { }
  lemma SocketIoJoin() ensures "socket" + "dot" + "io" == "socketdotio" { }

  lemma SocketIoDots()
    ensures ReplaceDots("socket.io") == "socketdotio"
  {
    SocketIoSplit();
    SocketIoParts();
    DotSpelled();
    SocketIoJoin();
    ReplaceDots3("socket", ".", "io");
  }

  lemma SocketIoSlug()
    ensures Slug("Socket.IO") == "socketdotio"
  {
    SocketIoClean();
    NoWhitespaceIn("Socket.IO");
    NoWhitespaceIn("socket.io");
    SocketIoLower();
    SocketIoDots();
    Steps("Socket.IO", "Socket.IO", "socket.io", "socket.io", "socketdotio");
  }

  // "Spring Boot"

  lemma SpringBootPlain() ensures '/' !in "Spring Boot" && '.' !in "springboot" { }
  lemma SpringBootHead() ensures BeforeFirst("Spring Boot", '/') == "Spring Boot" { SpringBootPlain(); }
  lemma SpringBootEnds() ensures TrimStart("Spring Boot") == "Spring Boot" && TrimEnd("Spring Boot") == "Spring Boot" { }
  lemma SpringBootLower() ensures ToLower("Spring Boot") == "spring boot" { }
  lemma SpringBootSplit() ensures "spring boot" == "spring" + " " + "boot" { }
  lemma SpaceDropped() ensures RemoveWhitespace(" ") == "" { }
  lemma SpringBootWords() ensures NoWhitespace("spring") && NoWhitespace("boot") { }
  lemma SpringBootJoin() ensures "spring" + "" + "boot" == "springboot" { }
  lemma SpringBootNoDots() ensures ReplaceDots("springboot") == "springboot" { SpringBootPlain(); ReplaceDotsWithoutDots("springboot"); }

  lemma SpringBootSpaces()
    ensures RemoveWhitespace("spring boot") == "springboot"
  {
    SpringBootSplit();
    SpaceDropped();
    SpringBootWords();
    NoWhitespaceIn("spring");
    NoWhitespaceIn("boot");
    SpringBootJoin();
    RemoveWhitespace3("spring", " ", "boot");
  }

  lemma SpringBootSlug()
    ensures Slug("Spring Boot") == "springboot"
  {
    SpringBootHead();
    SpringBootEnds();
    SpringBootLower();
    SpringBootSpaces();
    SpringBootNoDots();
    Steps("Spring Boot", "Spring Boot", "spring boot", "springboot", "springboot");
  }
}
