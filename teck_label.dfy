/**
 * The copy of `getTechIconUrl` inside the tech-stack label component, with its
 * own override table of Simple Icons slugs.
 */
module TeckLabel {
  import opened JsStrings
  import TechIconUrl
  import SlugExamples
  import opened OrderedMaps

  /** Lines 5-17 of the table. */
  const IconMapPart1: map<string, string> := map[
    "HTML5 / CSS3" := "html5",
    "Next.js" := "nextdotjs",
    "React Native" := "react",
    "Kotlin / Jetpack Compose" := "kotlin",
    "Swift / SwiftUI" := "swift",
    "C#" := "csharp",
    "Node.js" := "nodedotjs",
    "Express.js" := "express",
    "Vue.js" := "vuedotjs",
    "AWS" := "amazonaws",
    "GCP" := "googlecloud",
    "Azure" := "microsoftazure",
    "NCP" := "naver"
  ]

  /** Lines 18-30 of the table. */
  const IconMapPart2: map<string, string> := map[
    "Photoshop / Illustrator" := "adobephotoshop",
    "Figma" := "figma",
    "styled-components" := "styledcomponents",
    "SvelteKit" := "svelte",
    "TanStack Query" := "tanstack",
    "Shadcn/ui" := "shadcnui",
    "Drizzle ORM" := "drizzle",
    "TypeORM" := "typeorm",
    "Cassandra" := "apachecassandra",
    "Sequelize" := "sequelize",
    "JPA / Hibernate" := "hibernate",
    "Mongoose" := "mongoose",
    "MyBatis" := "mybatis"
  ]

  /** Lines 31-43 of the table. */
  const IconMapPart3: map<string, string> := map[
    "Firebase" := "firebase",
    "Supabase" := "supabase",
    "PocketBase" := "pocketbase",
    "Appwrite" := "appwrite",
    "Kafka" := "kafka",
    "RabbitMQ" := "rabbitmq",
    "Nginx" := "nginx",
    "Jenkins" := "jenkins",
    "GitHub Actions" := "githubactions",
    "GitLab CI" := "gitlab",
    "Terraform" := "terraform",
    "Ansible" := "ansible",
    "Docker" := "docker"
  ]

  /** Lines 44-53 of the table. */
  const IconMapPart4: map<string, string> := map[
    "Kubernetes" := "kubernetes",
    "Jira" := "jira",
    "Trello" := "trello",
    "Linear" := "linear",
    "Asana" := "asana",
    "Confluence" := "confluence",
    "Git" := "git",
    "GitHub" := "github",
    "GitLab" := "gitlab",
    "Bitbucket" := "bitbucket"
  ]

  /**
   * Names whose Simple Icons slug the general rule would get wrong: one table,
   * no name repeated, written as the union of four consecutive runs of its
   * entries.
   */
  const IconMap: map<string, string> := IconMapPart1 + IconMapPart2 + IconMapPart3 + IconMapPart4

  /** The names of run 1, in the order the source lists them. */
  const RunNames1: seq<string> := [
    "HTML5 / CSS3", "Next.js", "React Native", "Kotlin / Jetpack Compose",
    "Swift / SwiftUI", "C#", "Node.js", "Express.js", "Vue.js", "AWS", "GCP", "Azure",
    "NCP"
  ]

  /** The names of run 2, in the order the source lists them. */
  const RunNames2: seq<string> := [
    "Photoshop / Illustrator", "Figma", "styled-components", "SvelteKit",
    "TanStack Query", "Shadcn/ui", "Drizzle ORM", "TypeORM", "Cassandra", "Sequelize",
    "JPA / Hibernate", "Mongoose", "MyBatis"
  ]

  /** The names of run 3, in the order the source lists them. */
  const RunNames3: seq<string> := [
    "Firebase", "Supabase", "PocketBase", "Appwrite", "Kafka", "RabbitMQ", "Nginx",
    "Jenkins", "GitHub Actions", "GitLab CI", "Terraform", "Ansible", "Docker"
  ]

  /** The names of run 4, in the order the source lists them. */
  const RunNames4: seq<string> := [
    "Kubernetes", "Jira", "Trello", "Linear", "Asana", "Confluence", "Git", "GitHub",
    "GitLab", "Bitbucket"
  ]

  lemma Run1Listed()
    ensures IconMapPart1.Keys == set name | name in RunNames1
  {
  }

  lemma Run1Distinct()
    ensures Distinct(RunNames1)
  {
  }

  lemma Run2Listed()
    ensures IconMapPart2.Keys == set name | name in RunNames2
  {
  }

  lemma Run2Distinct()
    ensures Distinct(RunNames2)
  {
  }

  lemma Run3Listed()
    ensures IconMapPart3.Keys == set name | name in RunNames3
  {
  }

  lemma Run3Distinct()
    ensures Distinct(RunNames3)
  {
  }

  lemma Run4Listed()
    ensures IconMapPart4.Keys == set name | name in RunNames4
  {
  }

  lemma Run4Distinct()
    ensures Distinct(RunNames4)
  {
  }

  lemma Runs12Apart()
    ensures forall x, y :: x in RunNames1 && y in RunNames2 ==> x != y
  {
  }

  lemma Runs13Apart()
    ensures forall x, y :: x in RunNames1 && y in RunNames3 ==> x != y
  {
  }

  lemma Runs14Apart()
    ensures forall x, y :: x in RunNames1 && y in RunNames4 ==> x != y
  {
  }

  lemma Runs23Apart()
    ensures forall x, y :: x in RunNames2 && y in RunNames3 ==> x != y
  {
  }

  lemma Runs24Apart()
    ensures forall x, y :: x in RunNames2 && y in RunNames4 ==> x != y
  {
  }

  lemma Runs34Apart()
    ensures forall x, y :: x in RunNames3 && y in RunNames4 ==> x != y
  {
  }

  lemma Run1Slugs()
    ensures forall name :: name in IconMapPart1 ==> IconMapPart1[name] != ""
  {
  }

  lemma Run2Slugs()
    ensures forall name :: name in IconMapPart2 ==> IconMapPart2[name] != ""
  {
  }

  lemma Run3Slugs()
    ensures forall name :: name in IconMapPart3 ==> IconMapPart3[name] != ""
  {
  }

  lemma Run4Slugs()
    ensures forall name :: name in IconMapPart4 ==> IconMapPart4[name] != ""
  {
  }

  /** Every slug in the table is non-empty, so the guard `iconMap[name]` holds for every name in it. */
  lemma SlugsNonEmpty()
    ensures forall name :: name in IconMap ==> IconMap[name] != ""
  {
    Run1Slugs();
    Run2Slugs();
    Run3Slugs();
    Run4Slugs();
  }

  /** Two lists of distinct names with no name in common join into a list of distinct names. */
  lemma DistinctAppend(a: seq<string>, b: seq<string>)
    requires Distinct(a) && Distinct(b)
    requires forall x, y :: x in a && y in b ==> x != y
    ensures Distinct(a + b)
  {
    forall i, j | 0 <= i < j < |a + b|
      ensures (a + b)[i] != (a + b)[j]
    {
      if j < |a| {
        assert (a + b)[i] == a[i] && (a + b)[j] == a[j];
      } else if i < |a| {
        assert (a + b)[i] in a && (a + b)[j] in b;
      } else {
        assert (a + b)[i] == b[i - |a|] && (a + b)[j] == b[j - |a|];
      }
    }
  }

  /** A list of distinct names has as many names as entries. */
  lemma {:induction false} DistinctCard(s: seq<string>)
    requires Distinct(s)
    ensures |set name | name in s| == |s|
  {
    if s != [] {
      var t := s[1..];
      assert Distinct(t) by {
        forall i, j | 0 <= i < j < |t|
          ensures t[i] != t[j]
        {
          assert t[i] == s[i + 1] && t[j] == s[j + 1];
        }
      }
      DistinctCard(t);
      assert (set name | name in s) == (set name | name in t) + {s[0]};
      assert s[0] !in t by {
        forall i | 0 <= i < |t|
          ensures t[i] != s[0]
        {
          assert t[i] == s[i + 1];
        }
      }
    }
  }

  lemma NamesOfAppend(a: seq<string>, b: seq<string>)
    ensures (set name | name in a + b) == (set name | name in a) + (set name | name in b)
  {
  }

  /**
   * Four tables whose names are listed by four lists, with no name twice over
   * all of them, join into one table with one entry per listed name.
   */
  lemma JoinListed(m1: map<string, string>, m2: map<string, string>, m3: map<string, string>, m4: map<string, string>,
                   n1: seq<string>, n2: seq<string>, n3: seq<string>, n4: seq<string>)
    requires m1.Keys == (set name | name in n1) && m2.Keys == (set name | name in n2)
    requires m3.Keys == (set name | name in n3) && m4.Keys == (set name | name in n4)
    requires Distinct(n1 + n2 + n3 + n4)
    ensures (m1 + m2 + m3 + m4).Keys == set name | name in n1 + n2 + n3 + n4
    ensures |m1 + m2 + m3 + m4| == |n1 + n2 + n3 + n4|
  {
    NamesOfAppend(n1, n2);
    NamesOfAppend(n1 + n2, n3);
    NamesOfAppend(n1 + n2 + n3, n4);
    DistinctCard(n1 + n2 + n3 + n4);
  }

  /**
   * The table holds the source's 49 entries with no name twice: its names are
   * exactly those the four runs list, and it has one entry per listed name.
   */
  lemma IconMapEntries()
    ensures IconMap.Keys == set name | name in RunNames1 + RunNames2 + RunNames3 + RunNames4
    ensures |IconMap| == 49
  {
    Run1Listed();
    Run2Listed();
    Run3Listed();
    Run4Listed();
    NoNameTwice();
    JoinListed(IconMapPart1, IconMapPart2, IconMapPart3, IconMapPart4, RunNames1, RunNames2, RunNames3, RunNames4);
  }

  /** The four runs list 49 names with no name twice. */
  lemma NoNameTwice()
    ensures |RunNames1 + RunNames2 + RunNames3 + RunNames4| == 49
    ensures Distinct(RunNames1 + RunNames2 + RunNames3 + RunNames4)
  {
    Run1Distinct();
    Run2Distinct();
    Run3Distinct();
    Run4Distinct();
    Runs12Apart();
    Runs13Apart();
    Runs14Apart();
    Runs23Apart();
    Runs24Apart();
    Runs34Apart();
    DistinctAppend(RunNames1, RunNames2);
    DistinctAppend(RunNames1 + RunNames2, RunNames3);
    DistinctAppend(RunNames1 + RunNames2 + RunNames3, RunNames4);
  }

  function GetTechIconUrl(name: string): (r: string)
    ensures TechIconUrl.CdnPrefix <= r
  {
    if name in IconMap && IconMap[name] != "" then TechIconUrl.CdnPrefix + IconMap[name]
    else
      var slug := ToLower(Trim(BeforeFirst(name, '/')));
      TechIconUrl.CdnPrefix + ReplaceDots(RemoveWhitespace(slug))
  }

  /** This copy and the utility agree on every name when the utility is given this table. */
  lemma AgreesWithUtility(name: string)
    ensures GetTechIconUrl(name) == TechIconUrl.GetTechIconUrl(IconMap, name)
  {
  }

  lemma ExamplesOutsidePart1()
    ensures "Redux / Redux Toolkit" !in IconMapPart1
    ensures "Socket.IO" !in IconMapPart1
    ensures "Spring Boot" !in IconMapPart1
  {
  }

  lemma ExamplesOutsidePart2()
    ensures "Redux / Redux Toolkit" !in IconMapPart2
    ensures "Socket.IO" !in IconMapPart2
    ensures "Spring Boot" !in IconMapPart2
    ensures "Next.js" !in IconMapPart2
    ensures "AWS" !in IconMapPart2
  {
  }

  lemma ExamplesOutsidePart3()
    ensures "Redux / Redux Toolkit" !in IconMapPart3
    ensures "Socket.IO" !in IconMapPart3
    ensures "Spring Boot" !in IconMapPart3
    ensures "Next.js" !in IconMapPart3
    ensures "AWS" !in IconMapPart3
  {
  }

  lemma ExamplesOutsidePart4()
    ensures "Redux / Redux Toolkit" !in IconMapPart4
    ensures "Socket.IO" !in IconMapPart4
    ensures "Spring Boot" !in IconMapPart4
    ensures "Next.js" !in IconMapPart4
    ensures "AWS" !in IconMapPart4
  {
  }

  /** A name with a non-empty table entry gets that entry. */
  lemma FromTable(name: string)
    requires name in IconMap && IconMap[name] != ""
    ensures GetTechIconUrl(name) == TechIconUrl.CdnPrefix + IconMap[name]
  {
  }

  /** An entry of the first run that no later run repeats is the table's entry. */
  lemma FirstRunWins(name: string)
    requires name in IconMapPart1
    requires name !in IconMapPart2 && name !in IconMapPart3 && name !in IconMapPart4
    ensures name in IconMap && IconMap[name] == IconMapPart1[name]
  {
  }

  /** A name in none of the runs gets the slug rule. */
  lemma OutsideTable(name: string)
    requires name !in IconMapPart1 && name !in IconMapPart2
    requires name !in IconMapPart3 && name !in IconMapPart4
    ensures GetTechIconUrl(name) == TechIconUrl.CdnPrefix + TechIconUrl.Slug(name)
  {
  }

  lemma FirstRunEntries()
    ensures "Next.js" in IconMapPart1 && IconMapPart1["Next.js"] == "nextdotjs"
    ensures "AWS" in IconMapPart1 && IconMapPart1["AWS"] == "amazonaws"
  {
  }

  lemma NextJsIsMapped()
    ensures GetTechIconUrl("Next.js") == "https://cdn.simpleicons.org/nextdotjs"
  {
    FirstRunEntries();
    ExamplesOutsidePart2();
    ExamplesOutsidePart3();
    ExamplesOutsidePart4();
    FirstRunWins("Next.js");
    FromTable("Next.js");
    NextDotJsUrl();
  }

  lemma AwsUrl()
    ensures GetTechIconUrl("AWS") == TechIconUrl.CdnPrefix + "amazonaws"
  {
    FirstRunEntries();
    ExamplesOutsidePart2();
    ExamplesOutsidePart3();
    ExamplesOutsidePart4();
    FirstRunWins("AWS");
    FromTable("AWS");
  }

  /** The table beats the slug rule, which alone would give "aws". */
  lemma AwsIsMapped()
    ensures GetTechIconUrl("AWS") == "https://cdn.simpleicons.org/amazonaws"
    ensures TechIconUrl.Slug("AWS") == "aws"
  {
    AwsUrl();
    AmazonAwsUrl();
    SlugExamples.AwsSlug();
  }

  lemma OutsideAllRuns(name: string)
    requires name in {"Redux / Redux Toolkit", "Socket.IO", "Spring Boot"}
    ensures GetTechIconUrl(name) == TechIconUrl.CdnPrefix + TechIconUrl.Slug(name)
  {
    ExamplesOutsidePart1();
    ExamplesOutsidePart2();
    ExamplesOutsidePart3();
    ExamplesOutsidePart4();
    OutsideTable(name);
  }

  lemma NextDotJsUrl() ensures TechIconUrl.CdnPrefix + "nextdotjs" == "https://cdn.simpleicons.org/nextdotjs" { }
  lemma AmazonAwsUrl() ensures TechIconUrl.CdnPrefix + "amazonaws" == "https://cdn.simpleicons.org/amazonaws" { }
  lemma ReduxUrl() ensures TechIconUrl.CdnPrefix + "redux" == "https://cdn.simpleicons.org/redux" { }
  lemma SocketIoUrl() ensures TechIconUrl.CdnPrefix + "socketdotio" == "https://cdn.simpleicons.org/socketdotio" { }
  lemma SpringBootUrl() ensures TechIconUrl.CdnPrefix + "springboot" == "https://cdn.simpleicons.org/springboot" { }

  /** Only the part before the '/' is used. */
  lemma ReduxUsesPartBeforeSlash()
    ensures GetTechIconUrl("Redux / Redux Toolkit") == "https://cdn.simpleicons.org/redux"
  {
    OutsideAllRuns("Redux / Redux Toolkit");
    SlugExamples.ReduxSlug();
    ReduxUrl();
  }

  /** Each '.' is spelled "dot". */
  lemma SocketIoSpellsDot()
    ensures GetTechIconUrl("Socket.IO") == "https://cdn.simpleicons.org/socketdotio"
  {
    OutsideAllRuns("Socket.IO");
    SlugExamples.SocketIoSlug();
    SocketIoUrl();
  }

  /** Whitespace inside the name is dropped. */
  lemma SpringBootDropsSpace()
    ensures GetTechIconUrl("Spring Boot") == "https://cdn.simpleicons.org/springboot"
  {
    OutsideAllRuns("Spring Boot");
    SlugExamples.SpringBootSlug();
    SpringBootUrl();
  }
}
