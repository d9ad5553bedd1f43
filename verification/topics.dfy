/** The roadmap generator's constant topic pools and the constant list of topics it advises
    skipping. */
module Topics {

  /** A study topic: its title, the hours it takes and where to learn it. */
  datatype Topic = Topic(title: string, hours: nat, resources: seq<string>)

  const DsaBeginner: seq<Topic> := [
    Topic("Arrays & Strings Basics", 10, ["LeetCode Easy", "NeetCode Arrays"]),
    Topic("Two Pointers Technique", 8, ["LeetCode Two Pointers", "Take U Forward"]),
    Topic("Basic Sorting Algorithms", 6, ["Visualgo", "GeeksforGeeks"]),
    Topic("Hash Maps & Sets", 8, ["LeetCode Hash Table", "NeetCode Hashing"])
  ]

  const DsaIntermediate: seq<Topic> := [
    Topic("Binary Search Mastery", 10, ["LeetCode Binary Search", "Strivers A2Z"]),
    Topic("Linked Lists & Pointers", 8, ["LeetCode Linked List", "NeetCode"]),
    Topic("Stacks & Queues", 8, ["LeetCode Stack", "Monotonic Stack Patterns"]),
    Topic("Trees & BST", 12, ["LeetCode Tree", "NeetCode Trees"]),
    Topic("Recursion & Backtracking", 12, ["LeetCode Backtracking", "Strivers A2Z"])
  ]

  const DsaAdvanced: seq<Topic> := [
    Topic("Dynamic Programming", 20, ["LeetCode DP", "NeetCode DP", "AtCoder DP"]),
    Topic("Graph Algorithms", 15, ["LeetCode Graph", "William Fiset YouTube"]),
    Topic("Advanced Trees (Tries, Segment)", 10, ["CP Algorithms", "CSES Problem Set"]),
    Topic("Greedy Algorithms", 8, ["LeetCode Greedy", "Strivers A2Z"])
  ]

  const OsTopics: seq<Topic> := [
    Topic("Process & Threads", 4, ["Gate Smashers", "OS Concepts Book"]),
    Topic("Memory Management", 4, ["Gate Smashers", "GeeksforGeeks"]),
    Topic("CPU Scheduling", 3, ["Gate Smashers", "Javatpoint"]),
    Topic("Deadlocks & Synchronization", 4, ["Gate Smashers", "Neso Academy"])
  ]

  const CnTopics: seq<Topic> := [
    Topic("OSI & TCP/IP Models", 3, ["Gate Smashers", "Computer Networks Book"]),
    Topic("HTTP, DNS, TCP/UDP", 4, ["MDN Web Docs", "Hussein Nasser"]),
    Topic("Network Security Basics", 3, ["Cybrary", "NetworkChuck"])
  ]

  const DbmsTopics: seq<Topic> := [
    Topic("SQL Fundamentals", 6, ["SQLZoo", "Mode Analytics SQL"]),
    Topic("Normalization & ER Diagrams", 4, ["Gate Smashers", "GeeksforGeeks"]),
    Topic("Indexing & Transactions", 4, ["Use The Index Luke", "CMU DB Course"]),
    Topic("NoSQL Concepts", 3, ["MongoDB University", "Redis University"])
  ]

  const OopsTopics: seq<Topic> := [
    Topic("Core OOP Concepts", 4, ["GeeksforGeeks", "Refactoring Guru"]),
    Topic("SOLID Principles", 4, ["Refactoring Guru", "Clean Code Book"]),
    Topic("Design Patterns", 8, ["Refactoring Guru", "Head First Design Patterns"])
  ]

  const ProjectTopics: seq<Topic> := [
    Topic("Build Portfolio Website", 8, ["Frontend Mentor", "Tailwind CSS Docs"]),
    Topic("Full Stack CRUD App", 15, ["Traversy Media", "Next.js Docs"]),
    Topic("Real-time Chat Application", 12, ["Socket.io Docs", "Firebase Docs"]),
    Topic("API Development Project", 10, ["REST API Tutorial", "Postman Learning"])
  ]

  const ShortTime: seq<string> := [
    "Competitive Programming (CP) contests",
    "Advanced graph theory (strongly connected components)",
    "Number theory and combinatorics",
    "Segment trees with lazy propagation",
    "Heavy-light decomposition"
  ]

  const LowPriority: seq<string> := [
    "Blockchain development",
    "Game development",
    "Mobile app development (unless targeted)",
    "Machine learning (unless targeted)"
  ]

  /** The DSA pool by current DSA score: below 2 the beginner topics and the first two
      intermediate ones; below 3.5 the intermediate topics and the first two advanced ones;
      otherwise the advanced topics. */
  function DsaPool(dsa: real): (r: seq<Topic>)
    ensures dsa < 2.0 ==> |r| == 6 && r[..4] == DsaBeginner && r[4..] == DsaIntermediate[..2]
    ensures 2.0 <= dsa < 3.5 ==> |r| == 7 && r[..5] == DsaIntermediate && r[5..] == DsaAdvanced[..2]
    ensures 3.5 <= dsa ==> r == DsaAdvanced
  {
    if dsa < 2.0 then DsaBeginner + DsaIntermediate[..2]
    else if dsa < 3.5 then DsaIntermediate + DsaAdvanced[..2]
    else DsaAdvanced
  }

  /** The fundamentals pool: operating systems, then networks, then databases, then
      object-oriented design, fourteen topics in all. */
  function FundamentalsPool(): (r: seq<Topic>)
    ensures |r| == 14
    ensures r[..4] == OsTopics && r[4..7] == CnTopics && r[7..11] == DbmsTopics && r[11..] == OopsTopics
  {
    OsTopics + CnTopics + DbmsTopics + OopsTopics
  }

  /** The topics the roadmap advises skipping: the first three short-time topics and the first
      two low-priority ones. */
  const ExcludedTopics: seq<string> := ShortTime[..3] + LowPriority[..2]

  /** The excluded list is these five strings, whatever the candidate. */
  lemma ExcludedTopicsContents()
    ensures ExcludedTopics == [
      "Competitive Programming (CP) contests",
      "Advanced graph theory (strongly connected components)",
      "Number theory and combinatorics",
      "Blockchain development",
      "Game development"]
  {
  }
}
